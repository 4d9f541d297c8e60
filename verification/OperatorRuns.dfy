/** The operator-run queue of the console: requests, aborts and other writers' rows on one event log,
    the active view that the conflict check reads, and the job-status view the page polls. */
module OperatorRuns {
  import opened Prelude

  type RunId = nat

  /** Event types; `Other` stands for every type that neither view looks at. */
  datatype Kind =
    | RunRequested | RunStarted | RunCompleted | RunFailed | RunAborted
    | IngestionStart | IngestionComplete | IngestionFailed | DataOperationsComplete
    | Other(name: string)

  /** A row of `platform.application_log`; `at` is `recorded_at`, read off the database clock, in
      microseconds. The sequence order is the insertion order, which `at` need not follow. */
  datatype Row = Row(run: RunId, kind: Kind, at: int)

  const SECOND := 1_000_000
  const WATCHDOG_SECONDS := 90 * 60
  const OPERATOR_WINDOW := 6 * 60 * 60 * SECOND
  const CRON_WINDOW := 90 * 60 * SECOND

  // ── The active view ──────────────────────────────────────────────────────

  predicate EndsOperator(k: Kind) {
    k.RunCompleted? || k.RunFailed? || k.RunAborted?
  }

  predicate EndsCron(k: Kind) {
    k.IngestionComplete? || k.IngestionFailed? || k.DataOperationsComplete?
  }

  predicate Closed(log: seq<Row>, run: RunId) {
    exists t <- log :: t.run == run && EndsOperator(t.kind)
  }

  predicate CronClosed(log: seq<Row>, run: RunId) {
    exists t <- log :: t.run == run && EndsCron(t.kind)
  }

  predicate Unresolved(log: seq<Row>, r: Row) {
    r.kind.RunRequested? && !Closed(log, r.run)
  }

  /** A row the operator query returns. */
  predicate Waiting(log: seq<Row>, now: int, r: Row) {
    Unresolved(log, r) && r.at >= now - OPERATOR_WINDOW
  }

  /** A row the cron query returns. */
  predicate InFlight(log: seq<Row>, now: int, r: Row) {
    r.kind.IngestionStart? && !CronClosed(log, r.run) && r.at >= now - CRON_WINDOW
  }

  /** ORDER BY recorded_at DESC LIMIT 1. Which of several equal timestamps wins never matters to the
      status below. */
  function Newest(rows: seq<Row>): (newest: Option<Row>)
    ensures newest.None? <==> rows == []
    ensures newest.Some? ==> newest.value in rows && forall r <- rows :: r.at <= newest.value.at
  {
    if rows == [] then None
    else
      var rest := Newest(rows[1..]);
      if rest.Some? && rest.value.at >= rows[0].at then rest else Some(rows[0])
  }

  /** Whole seconds since `at`, truncated toward zero as `int(...)` does. */
  function Elapsed(now: int, at: int): int {
    if now >= at then (now - at) / SECOND else -((at - now) / SECOND)
  }

  predicate Overdue(now: int, at: int) {
    Elapsed(now, at) > WATCHDOG_SECONDS
  }

  datatype JobStatus = QUEUED | RUNNING | TIMEOUT | SUCCESS | FAILED | ABORTED

  datatype Job = Job(row: Row, operator: bool, status: JobStatus)

  /** The two clocks of one request: the windows are cut in SQL by the database's, the elapsed time is
      computed on the console host's. */
  datatype Clocks = Clocks(database: int, host: int)

  /** `_fetch_active_job`: the operator run if there is one, else the cron run. */
  function ActiveJob(log: seq<Row>, now: Clocks): Option<Job> {
    var op := Newest(Filter(log, r => Waiting(log, now.database, r)));
    var cron := Newest(Filter(log, r => InFlight(log, now.database, r)));
    match (if op.Some? then op else cron)
    case None => None
    case Some(chosen) => Some(Job(chosen, op.Some?, if Overdue(now.host, chosen.at) then TIMEOUT else RUNNING))
  }

  predicate Accepts(log: seq<Row>, now: Clocks) {
    ActiveJob(log, now).None? || ActiveJob(log, now).value.status != RUNNING
  }

  lemma OverdueMeansOlder(now: int, at: int)
    ensures Overdue(now, at) <==> now - at >= (WATCHDOG_SECONDS + 1) * SECOND
  {
  }

  ghost predicate SomeWaiting(log: seq<Row>, now: int) {
    exists r <- log :: Waiting(log, now, r)
  }

  ghost predicate AllWaitingOverdue(log: seq<Row>, now: Clocks) {
    forall r <- log :: Waiting(log, now.database, r) ==> Overdue(now.host, r.at)
  }

  ghost predicate AllInFlightOverdue(log: seq<Row>, now: Clocks) {
    forall r <- log :: InFlight(log, now.database, r) ==> Overdue(now.host, r.at)
  }

  /** The conflict check, said without "the newest row": a request is accepted exactly when every
      unresolved operator run of the last six hours is past the watchdog, and either there is such a
      run or every cron run in flight is past it too. */
  lemma AcceptedIff(log: seq<Row>, now: Clocks)
    ensures Accepts(log, now) <==>
      AllWaitingOverdue(log, now) && (SomeWaiting(log, now.database) || AllInFlightOverdue(log, now))
  {
    var ops := Filter(log, r => Waiting(log, now.database, r));
    var crons := Filter(log, r => InFlight(log, now.database, r));
    FilterMembers(log, r => Waiting(log, now.database, r));
    FilterMembers(log, r => InFlight(log, now.database, r));
    var op, cron := Newest(ops), Newest(crons);
    if op.Some? {
      assert op.value in ops;
      forall r | r in log && Waiting(log, now.database, r)
        ensures r.at <= op.value.at && (Overdue(now.host, op.value.at) ==> Overdue(now.host, r.at))
      {
        assert r in ops;
        OverdueMeansOlder(now.host, r.at);
        OverdueMeansOlder(now.host, op.value.at);
      }
    } else if cron.Some? {
      assert cron.value in crons;
      forall r | r in log && InFlight(log, now.database, r)
        ensures r.at <= cron.value.at && (Overdue(now.host, cron.value.at) ==> Overdue(now.host, r.at))
      {
        assert r in crons;
        OverdueMeansOlder(now.host, r.at);
        OverdueMeansOlder(now.host, cron.value.at);
      }
    }
  }

  // ── The same over the rows, in the source's own figures ──────────────────

  /** A request of the last six hours with no completed, failed or aborted row of its run. */
  predicate OpenRequest(log: seq<Row>, now: int, r: Row) {
    && r.kind.RunRequested? && now - r.at <= 6 * 3600 * 1_000_000
    && !exists t <- log :: t.run == r.run && (t.kind.RunCompleted? || t.kind.RunFailed? || t.kind.RunAborted?)
  }

  /** A cron start of the last 90 minutes with no complete or failed ingestion and no completed operation of
      its run. */
  predicate OpenCron(log: seq<Row>, now: int, r: Row) {
    && r.kind.IngestionStart? && now - r.at <= 90 * 60 * 1_000_000
    && !exists t <- log :: t.run == r.run
         && (t.kind.IngestionComplete? || t.kind.IngestionFailed? || t.kind.DataOperationsComplete?)
  }

  /** At least 90 minutes and one second old. */
  predicate TimedOut(now: int, r: Row) {
    now - r.at >= (90 * 60 + 1) * 1_000_000
  }

  lemma OpenIff(log: seq<Row>, now: int, r: Row)
    ensures OpenRequest(log, now, r) <==> Waiting(log, now, r)
    ensures OpenCron(log, now, r) <==> InFlight(log, now, r)
    ensures TimedOut(now, r) <==> Overdue(now, r.at)
  {
    OverdueMeansOlder(now, r.at);
    if Closed(log, r.run) {
      var t :| t in log && t.run == r.run && EndsOperator(t.kind);
    }
    if CronClosed(log, r.run) {
      var t :| t in log && t.run == r.run && EndsCron(t.kind);
    }
  }

  /** The job that blocks, or that has timed out: the newest open request, or the newest open cron run when
      there is no open request. */
  lemma ActiveJobIs(log: seq<Row>, now: Clocks)
    ensures ActiveJob(log, now).None? <==>
      forall r <- log :: !OpenRequest(log, now.database, r) && !OpenCron(log, now.database, r)
    ensures ActiveJob(log, now).Some? ==>
      var job := ActiveJob(log, now).value;
      && job.row in log
      && (job.operator <==> exists r <- log :: OpenRequest(log, now.database, r))
      && (job.operator ==>
            && OpenRequest(log, now.database, job.row)
            && forall r <- log :: OpenRequest(log, now.database, r) ==> r.at <= job.row.at)
      && (!job.operator ==>
            && OpenCron(log, now.database, job.row)
            && forall r <- log :: OpenCron(log, now.database, r) ==> r.at <= job.row.at)
      && job.status == if TimedOut(now.host, job.row) then TIMEOUT else RUNNING
  {
    var ops, crons := (r: Row) => Waiting(log, now.database, r), (r: Row) => InFlight(log, now.database, r);
    FilterMembers(log, ops);
    FilterMembers(log, crons);
    forall r ensures OpenRequest(log, now.database, r) <==> Waiting(log, now.database, r)
      ensures OpenCron(log, now.database, r) <==> InFlight(log, now.database, r)
    {
      OpenIff(log, now.database, r);
    }
    var op, cron := Newest(Filter(log, ops)), Newest(Filter(log, crons));
    if op.Some? {
      assert op.value in Filter(log, ops);
      OpenIff(log, now.host, op.value);
    } else if cron.Some? {
      assert cron.value in Filter(log, crons);
      OpenIff(log, now.host, cron.value);
    }
  }

  /** Acceptance over the rows: every open request has timed out, and there is one or every open cron run
      has timed out too. */
  lemma AcceptedOverRows(log: seq<Row>, now: Clocks)
    ensures Accepts(log, now) <==>
      && (forall r <- log :: OpenRequest(log, now.database, r) ==> TimedOut(now.host, r))
      && ((exists r <- log :: OpenRequest(log, now.database, r))
          || forall r <- log :: OpenCron(log, now.database, r) ==> TimedOut(now.host, r))
  {
    AcceptedIff(log, now);
    forall r ensures OpenRequest(log, now.database, r) <==> Waiting(log, now.database, r)
      ensures OpenCron(log, now.database, r) <==> InFlight(log, now.database, r)
      ensures TimedOut(now.host, r) <==> Overdue(now.host, r.at)
    {
      OpenIff(log, now.database, r);
      OpenIff(log, now.host, r);
    }
  }

  /** With a host clock that is not ahead of the database's, a cron run in flight never times out; it
      fails to block exactly when timed-out operator runs, and no younger ones, are in front of it. */
  lemma CronMaskedIff(log: seq<Row>, now: Clocks)
    requires now.host <= now.database
    requires exists r <- log :: InFlight(log, now.database, r)
    ensures Accepts(log, now) <==> SomeWaiting(log, now.database) && AllWaitingOverdue(log, now)
  {
    AcceptedIff(log, now);
    var r :| r in log && InFlight(log, now.database, r);
    OverdueMeansOlder(now.host, r.at);
  }

  // ── The queue as a step machine ──────────────────────────────────────────

  /** A request checks and inserts in one step, its row being stamped by the database clock; the
      service's other rows come from the lane daemon and the scripts, which never insert a request. */
  datatype Step = Request(run: RunId, now: Clocks) | Abort(run: RunId, at: int) | Append(row: Row)

  function Apply(log: seq<Row>, s: Step): seq<Row> {
    match s
    case Request(run, now) => if Accepts(log, now) then log + [Row(run, RunRequested, now.database)] else log
    case Abort(run, at) => log + [Row(run, RunAborted, at)]
    case Append(row) => if row.kind.RunRequested? then log else log + [row]
  }

  function Exec(log: seq<Row>, steps: seq<Step>): seq<Row> {
    if steps == [] then log else Apply(Exec(log, steps[..|steps| - 1]), steps[|steps| - 1])
  }

  lemma ExecSnoc(log: seq<Row>, steps: seq<Step>, s: Step)
    ensures Exec(log, steps + [s]) == Apply(Exec(log, steps), s)
  {
    assert (steps + [s])[..|steps|] == steps;
  }

  /** The host clock is ahead of the database clock by at most `skew` at every request. */
  predicate Skewed(steps: seq<Step>, skew: nat) {
    forall s <- steps :: s.Request? ==> s.now.host - s.now.database <= skew
  }

  /** The least distance of two unresolved requests: 90 minutes and one second, less the skew. */
  function Spacing(skew: nat): int {
    (WATCHDOG_SECONDS + 1) * SECOND - skew
  }

  predicate Spaced(log: seq<Row>, skew: nat) {
    forall i, j :: 0 <= i < j < |log| && Unresolved(log, log[i]) && Unresolved(log, log[j])
      ==> log[j].at - log[i].at >= Spacing(skew)
  }

  lemma ClosedStays(log: seq<Row>, more: seq<Row>, run: RunId)
    requires Closed(log, run)
    ensures Closed(log + more, run)
  {
    var t :| t in log && t.run == run && EndsOperator(t.kind);
    assert t in log + more;
  }

  lemma StepKeepsSpaced(log: seq<Row>, s: Step, skew: nat)
    requires Spaced(log, skew) && Skewed([s], skew)
    ensures Spaced(Apply(log, s), skew)
  {
    assert s in [s];
    var log' := Apply(log, s);
    forall i, j | 0 <= i < j < |log'| && Unresolved(log', log'[i]) && Unresolved(log', log'[j])
      ensures log'[j].at - log'[i].at >= Spacing(skew)
    {
      var more := log'[|log|..];
      assert log' == log + more;
      if Closed(log, log'[i].run) {
        ClosedStays(log, more, log'[i].run);
      }
      if j < |log| {
        if Closed(log, log'[j].run) {
          ClosedStays(log, more, log'[j].run);
        }
        assert Unresolved(log, log[i]) && Unresolved(log, log[j]);
      } else {
        AcceptedIff(log, s.now);
        OverdueMeansOlder(s.now.host, log[i].at);
        assert log[i] in log && Unresolved(log, log[i]);
      }
    }
  }

  /** In every log reachable by requests, aborts and other writers' rows, any two unresolved operator
      runs were requested at least 90 minutes and one second apart, less the most by which the host
      clock is ahead of the database clock. Nothing is asked of the database clock itself. */
  lemma {:induction false} UnresolvedRunsAreSpaced(steps: seq<Step>, skew: nat)
    requires Skewed(steps, skew)
    ensures Spaced(Exec([], steps), skew)
  {
    if steps != [] {
      var init, last := steps[..|steps| - 1], steps[|steps| - 1];
      assert last in steps;
      UnresolvedRunsAreSpaced(init, skew);
      StepKeepsSpaced(Exec([], init), last, skew);
    }
  }

  lemma FirstRequest(run: RunId, now: Clocks)
    ensures Exec([], [Request(run, now)]) == [Row(run, RunRequested, now.database)]
  {
    assert [Request(run, now)] == [] + [Request(run, now)];
    ExecSnoc([], [], Request(run, now));
    AcceptedIff([], now);
  }

  /** The distance of the spacing theorem is reached for every skew up to it, and no smaller one is:
      the bound is exact. */
  lemma SpacingIsTight(skew: nat, late: int)
    requires 0 <= late <= Spacing(skew)
    ensures var second := Request(1, Clocks(late, late + skew));
      Exec([], [Request(0, Clocks(0, skew)), second]) ==
        if late == Spacing(skew) then [Row(0, RunRequested, 0), Row(1, RunRequested, late)]
        else [Row(0, RunRequested, 0)]
  {
    var one, now := [Row(0, RunRequested, 0)], Clocks(late, late + skew);
    FirstRequest(0, Clocks(0, skew));
    assert [Request(0, Clocks(0, skew)), Request(1, now)] == [Request(0, Clocks(0, skew))] + [Request(1, now)];
    ExecSnoc([], [Request(0, Clocks(0, skew))], Request(1, now));
    AcceptedIff(one, now);
    OverdueMeansOlder(now.host, 0);
    assert Waiting(one, late, one[0]) && one[0] in one;
  }

  /** A terminal row is for ever: in no extension of the log, at no time, is the run the active
      operator run again. */
  lemma TerminalIsForever(log: seq<Row>, more: seq<Row>, now: Clocks, run: RunId)
    requires Closed(log, run)
    ensures var job := ActiveJob(log + more, now); job.Some? && job.value.operator ==> job.value.row.run != run
  {
    ClosedStays(log, more, run);
    FilterMembers(log + more, r => Waiting(log + more, now.database, r));
    var op := Newest(Filter(log + more, r => Waiting(log + more, now.database, r)));
    if op.Some? {
      assert Waiting(log + more, now.database, op.value);
    }
  }

  /** The cron job closes a whole run id with the first stage it completes, while it goes on to start
      further stages under the same id: from then on the run never blocks a request. */
  lemma FirstStageClosesCron(log: seq<Row>, more: seq<Row>, now: Clocks, run: RunId)
    requires CronClosed(log, run)
    ensures var job := ActiveJob(log + more, now); job.Some? && !job.value.operator ==> job.value.row.run != run
    ensures Accepts(log + more, now) <==>
      Accepts(Filter(log + more, (r: Row) => r.run != run || !r.kind.IngestionStart?), now)
  {
    var whole := log + more;
    var t :| t in log && t.run == run && EndsCron(t.kind);
    assert t in whole;
    FilterMembers(whole, r => InFlight(whole, now.database, r));
    var cron := Newest(Filter(whole, r => InFlight(whole, now.database, r)));
    if cron.Some? {
      assert InFlight(whole, now.database, cron.value);
    }
    var without := Filter(whole, (r: Row) => r.run != run || !r.kind.IngestionStart?);
    FilterMembers(whole, (r: Row) => r.run != run || !r.kind.IngestionStart?);
    forall r: RunId ensures Closed(whole, r) == Closed(without, r) && CronClosed(whole, r) == CronClosed(without, r) {
      if Closed(whole, r) {
        var e :| e in whole && e.run == r && EndsOperator(e.kind);
        assert e in without;
      }
      if CronClosed(whole, r) {
        var e :| e in whole && e.run == r && EndsCron(e.kind);
        assert e in without;
      }
    }
    forall r
      ensures r in whole && Waiting(whole, now.database, r) <==> r in without && Waiting(without, now.database, r)
    {
    }
    forall r
      ensures r in whole && InFlight(whole, now.database, r) <==> r in without && InFlight(without, now.database, r)
    {
    }
    AcceptedIff(whole, now);
    AcceptedIff(without, now);
  }

  // ── The retention of the log ─────────────────────────────────────────────

  predicate Opens(k: Kind) {
    k.RunRequested? || k.IngestionStart?
  }

  predicate Ends(k: Kind) {
    EndsOperator(k) || EndsCron(k)
  }

  /** A run is over only after it was requested or started. */
  predicate EndsFollow(log: seq<Row>) {
    forall r <- log, t <- log :: (r.run == t.run && Opens(r.kind) && Ends(t.kind)) ==> r.at <= t.at
  }

  /** Deleting the rows recorded before a cutoff that lies outside the six-hour window leaves every conflict
      check as it was. */
  lemma RetentionKeepsCheck(log: seq<Row>, now: Clocks, cutoff: int)
    requires EndsFollow(log) && cutoff <= now.database - OPERATOR_WINDOW
    ensures Accepts(Filter(log, (r: Row) => r.at >= cutoff), now) <==> Accepts(log, now)
  {
    var kept := Filter(log, (r: Row) => r.at >= cutoff);
    FilterMembers(log, (r: Row) => r.at >= cutoff);
    forall r ensures r in kept && Waiting(kept, now.database, r) <==> r in log && Waiting(log, now.database, r) {
      if r in log && r.kind.RunRequested? && r.at >= cutoff && Closed(log, r.run) {
        var t :| t in log && t.run == r.run && EndsOperator(t.kind);
        assert t in kept;
      }
    }
    forall r ensures r in kept && InFlight(kept, now.database, r) <==> r in log && InFlight(log, now.database, r) {
      if r in log && r.kind.IngestionStart? && r.at >= cutoff && CronClosed(log, r.run) {
        var t :| t in log && t.run == r.run && EndsCron(t.kind);
        assert t in kept;
      }
    }
    AcceptedIff(kept, now);
    AcceptedIff(log, now);
  }

  // ── When check and insert are two steps ──────────────────────────────────

  /** A connection whose conflict check passed at `now`, when the log had `seen` rows. */
  datatype Guard = Guard(seen: nat, now: Clocks)

  /** Any number of console connections, each between its conflict check and its insert under the run id
      it has drawn. */
  datatype Split = Split(log: seq<Row>, passed: map<RunId, Guard>)

  datatype Op = Check(run: RunId, now: Clocks) | Insert(run: RunId, at: int) | Write(row: Row)

  function Do(w: Split, op: Op): Split {
    match op
    case Check(run, now) => if Accepts(w.log, now) then w.(passed := w.passed[run := Guard(|w.log|, now)]) else w
    case Insert(run, at) =>
      if run in w.passed then Split(w.log + [Row(run, RunRequested, at)], w.passed - {run}) else w
    case Write(row) => if row.kind.RunRequested? then w else w.(log := w.log + [row])
  }

  function Schedule(w: Split, ops: seq<Op>): Split {
    if ops == [] then w else Do(Schedule(w, ops[..|ops| - 1]), ops[|ops| - 1])
  }

  lemma ScheduleSnoc(w: Split, ops: seq<Op>, op: Op)
    ensures Schedule(w, ops + [op]) == Do(Schedule(w, ops), op)
  {
    assert (ops + [op])[..|ops|] == ops;
  }

  /** No unresolved request closer than the spacing has come in between. */
  predicate Quiet(more: seq<Row>, log: seq<Row>, at: int, skew: nat) {
    forall r <- more :: Unresolved(log, r) ==> at - r.at >= Spacing(skew)
  }

  /** A check on `log` speaks for everything it saw, for as long after it as the insert takes. */
  lemma CheckedIsFar(log: seq<Row>, more: seq<Row>, now: Clocks, at: int, skew: nat, r: Row)
    requires Accepts(log, now) && now.host - now.database <= skew && now.database <= at
    requires r in log && Unresolved(log + more, r)
    ensures at - r.at >= Spacing(skew)
  {
    if Closed(log, r.run) {
      ClosedStays(log, more, r.run);
    }
    AcceptedIff(log, now);
    OverdueMeansOlder(now.host, r.at);
  }

  lemma RequestStaysOpen(log: seq<Row>, run: RunId, at: int)
    ensures forall id: RunId :: Closed(log + [Row(run, RunRequested, at)], id) <==> Closed(log, id)
  {
    forall id: RunId | Closed(log, id) ensures Closed(log + [Row(run, RunRequested, at)], id) {
      ClosedStays(log, [Row(run, RunRequested, at)], id);
    }
  }

  /** Exactly when an insert behind an earlier check keeps the spacing: when no unresolved request inserted
      since the check is closer than that to it. */
  lemma LateInsertIff(log: seq<Row>, more: seq<Row>, run: RunId, now: Clocks, at: int, skew: nat)
    requires Accepts(log, now) && now.host - now.database <= skew && now.database <= at
    requires Spaced(log + more, skew) && !Closed(log + more, run)
    ensures Spaced(log + more + [Row(run, RunRequested, at)], skew) <==> Quiet(more, log + more, at, skew)
  {
    var all, row := log + more, Row(run, RunRequested, at);
    var longer := all + [row];
    RequestStaysOpen(all, run, at);
    assert longer[|all|] == row && forall i :: 0 <= i < |all| ==> longer[i] == all[i];
    if Quiet(more, all, at, skew) {
      forall i | 0 <= i < |all| && Unresolved(all, all[i]) ensures at - all[i].at >= Spacing(skew) {
        if i < |log| {
          assert all[i] in log;
          CheckedIsFar(log, more, now, at, skew, all[i]);
        } else {
          assert all[i] in more;
        }
      }
    } else {
      var r :| r in more && Unresolved(all, r) && at - r.at < Spacing(skew);
      var k :| 0 <= k < |more| && more[k] == r;
      assert longer[|log| + k] == r;
    }
  }

  /** Every check is made under the skew, and no insert is stamped before its check. */
  predicate Timely(w: Split, ops: seq<Op>, skew: nat) {
    if ops == [] then true
    else
      var mid, op := Schedule(w, ops[..|ops| - 1]), ops[|ops| - 1];
      && Timely(w, ops[..|ops| - 1], skew)
      && (op.Check? ==> op.now.host - op.now.database <= skew)
      && (op.Insert? && op.run in mid.passed ==> mid.passed[op.run].now.database <= op.at)
  }

  predicate AlwaysSpaced(w: Split, ops: seq<Op>, skew: nat) {
    Spaced(Schedule(w, ops).log, skew) && (ops != [] ==> AlwaysSpaced(w, ops[..|ops| - 1], skew))
  }

  /** The insert, if it is one, is of a run closed already, or nothing too close came in since its check. */
  predicate QuietOp(w: Split, op: Op, skew: nat) {
    op.Insert? && op.run in w.passed && w.passed[op.run].seen <= |w.log| ==>
      Closed(w.log, op.run) || Quiet(w.log[w.passed[op.run].seen..], w.log, op.at, skew)
  }

  predicate AlwaysQuiet(w: Split, ops: seq<Op>, skew: nat) {
    if ops == [] then true
    else
      && AlwaysQuiet(w, ops[..|ops| - 1], skew)
      && QuietOp(Schedule(w, ops[..|ops| - 1]), ops[|ops| - 1], skew)
  }

  ghost predicate GuardsHold(w: Split, skew: nat) {
    forall run <- w.passed :: var g := w.passed[run];
      && g.seen <= |w.log| && Accepts(w.log[..g.seen], g.now) && g.now.host - g.now.database <= skew
  }

  lemma GuardsStep(w: Split, op: Op, skew: nat)
    requires GuardsHold(w, skew) && (op.Check? ==> op.now.host - op.now.database <= skew)
    ensures GuardsHold(Do(w, op), skew)
  {
    var w' := Do(w, op);
    assert w.log[..|w.log|] == w.log;
    forall run <- w'.passed ensures var g := w'.passed[run];
      g.seen <= |w'.log| && Accepts(w'.log[..g.seen], g.now) && g.now.host - g.now.database <= skew
    {
      if run in w.passed && w'.passed[run] == w.passed[run] {
        assert w'.log[..w.passed[run].seen] == w.log[..w.passed[run].seen];
      }
    }
  }

  /** One operation on a spaced log leaves it spaced exactly when it is quiet. */
  lemma SplitStepIff(w: Split, op: Op, skew: nat)
    requires GuardsHold(w, skew) && Spaced(w.log, skew)
    requires op.Insert? && op.run in w.passed ==> w.passed[op.run].now.database <= op.at
    ensures Spaced(Do(w, op).log, skew) <==> QuietOp(w, op, skew)
  {
    if op.Insert? && op.run in w.passed {
      var g := w.passed[op.run];
      var log, more := w.log[..g.seen], w.log[g.seen..];
      assert w.log == log + more;
      if Closed(w.log, op.run) {
        ClosedRowIsFree(w.log, Row(op.run, RunRequested, op.at), skew);
      } else {
        LateInsertIff(log, more, op.run, g.now, op.at, skew);
        assert QuietOp(w, op, skew) <==> Quiet(more, log + more, op.at, skew);
      }
    } else if Do(w, op).log != w.log {
      ClosedRowIsFree(w.log, op.row, skew);
    }
  }

  lemma ClosedRowIsFree(log: seq<Row>, row: Row, skew: nat)
    requires Spaced(log, skew) && (row.kind.RunRequested? ==> Closed(log, row.run))
    ensures Spaced(log + [row], skew)
  {
    var longer := log + [row];
    forall i | 0 <= i < |longer| && Unresolved(longer, longer[i]) ensures i < |log| && Unresolved(log, log[i]) {
      if Closed(log, longer[i].run) {
        ClosedStays(log, [row], longer[i].run);
      }
    }
  }

  /** Nothing in the source makes check and insert one step. Over every schedule of the checks and inserts
      of any number of connections and of other writers' rows, the log is spaced throughout if and only if
      between no connection's check and its insert another has inserted an unresolved request closer than
      the spacing. */
  lemma {:induction false} SplitSpacedIff(ops: seq<Op>, skew: nat)
    requires Timely(Split([], map[]), ops, skew)
    ensures GuardsHold(Schedule(Split([], map[]), ops), skew)
    ensures AlwaysSpaced(Split([], map[]), ops, skew) <==> AlwaysQuiet(Split([], map[]), ops, skew)
  {
    if ops != [] {
      var start, front := Split([], map[]), ops[..|ops| - 1];
      SplitSpacedIff(front, skew);
      GuardsStep(Schedule(start, front), ops[|ops| - 1], skew);
      if AlwaysSpaced(start, front, skew) {
        SplitStepIff(Schedule(start, front), ops[|ops| - 1], skew);
      }
    }
  }

  /** Two clicks in the same microsecond, on any log that accepts one, are both accepted. Uninterrupted,
      the two halves are the atomic request. */
  lemma SplitCheckAdmitsTwo(log: seq<Row>, a: RunId, b: RunId, now: Clocks)
    requires a != b && !Closed(log, a) && !Closed(log, b) && Accepts(log, now)
    ensures var t := now.database;
      var after := Schedule(Split(log, map[]), [Check(a, now), Check(b, now), Insert(a, t), Insert(b, t)]).log;
      && after == log + [Row(a, RunRequested, t)] + [Row(b, RunRequested, t)]
      && Unresolved(after, after[|log|]) && Unresolved(after, after[|log| + 1])
      && forall skew: nat :: Spacing(skew) > 0 ==> !Spaced(after, skew)
    ensures Do(Do(Split(log, map[]), Check(a, now)), Insert(a, now.database)).log == Apply(log, Request(a, now))
  {
    var t, w := now.database, Split(log, map[]);
    ScheduleSnoc(w, [], Check(a, now));
    ScheduleSnoc(w, [Check(a, now)], Check(b, now));
    ScheduleSnoc(w, [Check(a, now), Check(b, now)], Insert(a, t));
    ScheduleSnoc(w, [Check(a, now), Check(b, now), Insert(a, t)], Insert(b, t));
    assert [] + [Check(a, now)] == [Check(a, now)];
    assert [Check(a, now)] + [Check(b, now)] == [Check(a, now), Check(b, now)];
    assert [Check(a, now), Check(b, now)] + [Insert(a, t)] == [Check(a, now), Check(b, now), Insert(a, t)];
    assert [Check(a, now), Check(b, now), Insert(a, t)] + [Insert(b, t)]
        == [Check(a, now), Check(b, now), Insert(a, t), Insert(b, t)];
    var after := log + [Row(a, RunRequested, t)] + [Row(b, RunRequested, t)];
    RequestStaysOpen(log, a, t);
    RequestStaysOpen(log + [Row(a, RunRequested, t)], b, t);
    assert Unresolved(after, after[|log|]) && Unresolved(after, after[|log| + 1]);
  }

  // ── The job-status view ──────────────────────────────────────────────────

  function StatusOf(k: Kind): JobStatus {
    match k
    case RunRequested => QUEUED
    case RunStarted => RUNNING
    case RunCompleted => SUCCESS
    case RunFailed => FAILED
    case RunAborted => ABORTED
    case _ => RUNNING
  }

  predicate Final(s: JobStatus) {
    s == SUCCESS || s == FAILED || s == ABORTED
  }

  /** The last row of a run in `recorded_at` order, the last inserted of equals. */
  function LatestOf(log: seq<Row>, run: RunId): (latest: Option<Row>)
    ensures latest.Some? ==> latest.value in log && latest.value.run == run
    ensures latest.Some? ==> forall r <- log :: r.run == run ==> r.at <= latest.value.at
    ensures latest.None? <==> forall r <- log :: r.run != run
  {
    if log == [] then None
    else
      var init, last := log[..|log| - 1], log[|log| - 1];
      assert log == init + [last];
      var latest := LatestOf(init, run);
      if last.run == run && (latest.None? || last.at >= latest.value.at) then Some(last) else latest
  }

  /** `fetch_job_status`: the latest row of the run drives its status. */
  function StatusView(log: seq<Row>, run: RunId): Option<JobStatus> {
    var latest := LatestOf(log, run);
    if latest.None? then None else Some(StatusOf(latest.value.kind))
  }

  /** Row `k` is recorded after every other row of the run. */
  predicate LastRecorded(log: seq<Row>, run: RunId, k: nat) {
    && k < |log| && log[k].run == run
    && forall i :: 0 <= i < |log| && i != k && log[i].run == run ==> log[i].at < log[k].at
  }

  /** A row of the given kind is recorded after every other row of the run. */
  predicate LastIs(log: seq<Row>, run: RunId, kind: Kind) {
    exists k: nat | k < |log| :: LastRecorded(log, run, k) && log[k].kind == kind
  }

  predicate DistinctTimes(log: seq<Row>, run: RunId) {
    forall i, j :: 0 <= i < j < |log| && log[i].run == run && log[j].run == run ==> log[i].at != log[j].at
  }

  /** What the page shows, over the rows: a finished run shows how it finished, as long as no row of it is
      recorded later, and everything else that has a row and is past its request shows as running. */
  lemma StatusIff(log: seq<Row>, run: RunId)
    requires DistinctTimes(log, run)
    ensures StatusView(log, run) == None <==> forall r <- log :: r.run != run
    ensures StatusView(log, run) == Some(QUEUED) <==> LastIs(log, run, RunRequested)
    ensures StatusView(log, run) == Some(SUCCESS) <==> LastIs(log, run, RunCompleted)
    ensures StatusView(log, run) == Some(FAILED) <==> LastIs(log, run, RunFailed)
    ensures StatusView(log, run) == Some(ABORTED) <==> LastIs(log, run, RunAborted)
    ensures StatusView(log, run) == Some(RUNNING) <==>
      && (exists r <- log :: r.run == run)
      && forall kind <- [RunRequested, RunCompleted, RunFailed, RunAborted] :: !LastIs(log, run, kind)
    ensures StatusView(log, run) != Some(TIMEOUT)
  {
    var latest := LatestOf(log, run);
    if latest.Some? {
      var k: nat :| k < |log| && log[k] == latest.value;
      forall i | 0 <= i < |log| && i != k && log[i].run == run ensures log[i].at < log[k].at {
        assert log[i] in log;
      }
      assert LastRecorded(log, run, k);
      forall kind ensures LastIs(log, run, kind) <==> log[k].kind == kind {
      }
    }
  }

  predicate ViewsAgree(log: seq<Row>, run: RunId) {
    StatusView(log, run).Some? ==> (Final(StatusView(log, run).value) <==> Closed(log, run))
  }

  lemma LatestSnoc(log: seq<Row>, row: Row, run: RunId)
    ensures LatestOf(log + [row], run) ==
      if row.run == run && (LatestOf(log, run).None? || row.at >= LatestOf(log, run).value.at)
      then Some(row) else LatestOf(log, run)
  {
    assert (log + [row])[..|log|] == log;
  }

  lemma ClosedSnoc(log: seq<Row>, row: Row, run: RunId)
    ensures Closed(log + [row], run) <==> Closed(log, run) || (row.run == run && EndsOperator(row.kind))
  {
    if Closed(log, run) {
      ClosedStays(log, [row], run);
    }
    assert row in log + [row];
  }

  /** Row `j` arrives after a terminal row of its run. */
  ghost predicate Late(log: seq<Row>, run: RunId, j: nat)
    requires j < |log|
  {
    exists i :: 0 <= i < j && log[i].run == run && EndsOperator(log[i].kind)
  }

  /** What keeps the views together when row `j` is appended: a row that is not terminal, arriving late,
      is recorded before some terminal row already there; and the first terminal row is not recorded
      before any row already there. */
  ghost predicate KeepsAgreement(log: seq<Row>, run: RunId, j: nat)
    requires j < |log|
  {
    log[j].run == run ==>
      if EndsOperator(log[j].kind)
      then Late(log, run, j) || forall i :: 0 <= i < j && log[i].run == run ==> log[i].at <= log[j].at
      else Late(log, run, j) ==>
        exists i :: 0 <= i < j && log[i].run == run && EndsOperator(log[i].kind) && log[j].at < log[i].at
  }

  lemma LateIsClosed(log: seq<Row>, run: RunId, j: nat)
    requires j < |log|
    ensures Late(log, run, j) <==> Closed(log[..j], run)
  {
    if Late(log, run, j) {
      var i :| 0 <= i < j && log[i].run == run && EndsOperator(log[i].kind);
      assert log[..j][i] in log[..j];
    }
    if Closed(log[..j], run) {
      var t :| t in log[..j] && t.run == run && EndsOperator(t.kind);
      var i :| 0 <= i < j && log[..j][i] == t;
      assert log[i] == t;
    }
  }

  /** Appending one row to a log on which the views agree, in terms of the log before it. */
  lemma AppendAgrees(init: seq<Row>, row: Row, run: RunId)
    requires ViewsAgree(init, run)
    ensures ViewsAgree(init + [row], run) <==> (row.run == run ==>
      var latest := LatestOf(init, run);
      if EndsOperator(row.kind) then Closed(init, run) || latest.None? || latest.value.at <= row.at
      else Closed(init, run) ==> latest.Some? && row.at < latest.value.at)
  {
    LatestSnoc(init, row, run);
    ClosedSnoc(init, row, run);
  }

  /** Appending one row to a log on which the views agree. */
  lemma AgreementStep(log: seq<Row>, run: RunId, j: nat)
    requires j < |log| && ViewsAgree(log[..j], run)
    ensures ViewsAgree(log[..j + 1], run) <==> KeepsAgreement(log, run, j)
  {
    var init := log[..j];
    assert log[..j + 1] == init + [log[j]];
    AppendAgrees(init, log[j], run);
    LateIsClosed(log, run, j);
    var latest := LatestOf(init, run);
    forall i | 0 <= i < j ensures log[i] in init {
      assert init[i] == log[i];
    }
    if latest.Some? {
      var k :| 0 <= k < j && init[k] == latest.value;
      assert log[k] == latest.value;
    }
  }

  lemma {:induction false} AgreementRun(log: seq<Row>, run: RunId, n: nat)
    requires n <= |log| && forall j :: 0 <= j < n ==> KeepsAgreement(log, run, j)
    ensures ViewsAgree(log[..n], run)
  {
    if n > 0 {
      AgreementRun(log, run, n - 1);
      AgreementStep(log, run, n - 1);
    }
  }

  /** The two independently written views agree, after every row, on whether a run is over exactly
      when every appended row keeps them together. */
  lemma ViewsAgreeIff(log: seq<Row>, run: RunId)
    ensures (forall n :: 0 <= n <= |log| ==> ViewsAgree(log[..n], run))
       <==> (forall j :: 0 <= j < |log| ==> KeepsAgreement(log, run, j))
  {
    if forall j :: 0 <= j < |log| ==> KeepsAgreement(log, run, j) {
      forall n | 0 <= n <= |log| ensures ViewsAgree(log[..n], run) {
        AgreementRun(log, run, n);
      }
    }
    if forall n :: 0 <= n <= |log| ==> ViewsAgree(log[..n], run) {
      forall j | 0 <= j < |log| ensures KeepsAgreement(log, run, j) {
        assert ViewsAgree(log[..j], run) && ViewsAgree(log[..j + 1], run);
        AgreementStep(log, run, j);
      }
    }
  }

  predicate InOrder(log: seq<Row>) {
    forall i, j :: 0 <= i < j < |log| ==> log[i].at <= log[j].at
  }

  /** When rows are recorded in the order in which they are inserted, that says: no row that is not
      terminal is ever appended to a run that has a terminal one. */
  lemma OrderedViewsAgreeIff(log: seq<Row>, run: RunId)
    requires InOrder(log)
    ensures (forall n :: 0 <= n <= |log| ==> ViewsAgree(log[..n], run)) <==>
      (forall j :: 0 <= j < |log| && log[j].run == run && Late(log, run, j) ==> EndsOperator(log[j].kind))
  {
    ViewsAgreeIff(log, run);
    forall j | 0 <= j < |log|
      ensures KeepsAgreement(log, run, j) <==> (log[j].run == run && Late(log, run, j) ==> EndsOperator(log[j].kind))
    {
    }
  }

  lemma StartAfterAbort(run: RunId, t: int, log: seq<Row>)
    requires log == [Row(run, RunRequested, t), Row(run, RunAborted, t + 1), Row(run, RunStarted, t + 2)]
    ensures StatusView(log, run) == Some(RUNNING) && Closed(log, run) && Accepts(log, Clocks(t + 3, t + 3))
  {
    assert log[1] in log;
    assert Closed(log, run);
    var latest := LatestOf(log, run);
    assert log[2] in log && latest.value in log;
    AcceptedIff(log, Clocks(t + 3, t + 3));
  }

  /** They do disagree: an abort that lands after the lane daemon has picked the request up, and before
      it writes its start row, leaves the page showing RUNNING while the queue counts the run as over. */
  lemma AbortBeforeStartDisagrees(run: RunId, t: int)
    ensures var log := Exec([], [Request(run, Clocks(t, t)), Abort(run, t + 1), Append(Row(run, RunStarted, t + 2))]);
      StatusView(log, run) == Some(RUNNING) && Closed(log, run) && Accepts(log, Clocks(t + 3, t + 3))
  {
    var request, abort, start := Request(run, Clocks(t, t)), Abort(run, t + 1), Append(Row(run, RunStarted, t + 2));
    FirstRequest(run, Clocks(t, t));
    ExecSnoc([], [request], abort);
    ExecSnoc([], [request, abort], start);
    assert [request] + [abort] == [request, abort] && [request, abort] + [start] == [request, abort, start];
    StartAfterAbort(run, t, Exec([], [request, abort, start]));
  }

  // ── The endpoints ────────────────────────────────────────────────────────

  datatype Outcome = Queued(stage: Option<string>) | Conflict(active: Job) | Invalid

  /** The stage an action dispatches; None is the ValueError. */
  function CanonicalStage(action: string, stage: Option<string>, allowlist: map<string,
      string>): Option<Option<string>> {
    if action == "run_update" then Some(None)
    else if action == "run_validation" then Some(Some("data_validation"))
    else if action in ["run_feed", "run_scoped_feed", "repair_failed_scope", "bootstrap_baseline"] then
      if stage.Some? && stage.value in allowlist then Some(Some(allowlist[stage.value])) else None
    else if action == "run_fallback_source" then
      var named := if stage.Some? then stage.value else "sec_fundamentals_fallback";
      if named in allowlist then Some(Some(named)) else None
    else None
  }

  /** Which stage an action may dispatch: none for an update, its own for validation, the allowlist's for an
      allowlisted stage, and an allowlisted fallback, the SEC one unless another is named. */
  predicate Dispatches(action: string, stage: Option<string>, allowlist: map<string, string>, to: Option<string>) {
    || (action == "run_update" && to == None)
    || (action == "run_validation" && to == Some("data_validation"))
    || (action in {"run_feed", "run_scoped_feed", "repair_failed_scope", "bootstrap_baseline"}
        && exists name <- allowlist :: stage == Some(name) && to == Some(allowlist[name]))
    || (action == "run_fallback_source"
        && exists name <- allowlist :: to == Some(name) && stage in {None, Some(name)}
             && (stage == None ==> name == "sec_fundamentals_fallback"))
  }

  lemma CanonicalStageIff(action: string, stage: Option<string>, allowlist: map<string, string>, to: Option<string>)
    ensures CanonicalStage(action, stage, allowlist) == Some(to) <==> Dispatches(action, stage, allowlist, to)
  {
  }

  class Console {
    var log: seq<Row>

    constructor (log: seq<Row>)
      ensures this.log == log
    {
      this.log := log;
    }

    method RequestOperatorRun(action: string, stage: Option<string>, allowlist: map<string, string>, run: RunId,
        now: Clocks)
      returns (outcome: Outcome)
      modifies this
      ensures outcome.Invalid? <==> CanonicalStage(action, stage, allowlist).None?
      ensures log == if outcome.Invalid? then old(log) else Apply(old(log), Request(run, now))
      ensures outcome.Conflict? ==>
        log == old(log) && ActiveJob(log, now) == Some(outcome.active) && outcome.active.status == RUNNING
      ensures outcome.Conflict? ==>
        var r := outcome.active.row;
        && r in log && !TimedOut(now.host, r)
        && if outcome.active.operator then OpenRequest(log, now.database, r) else OpenCron(log, now.database, r)
      ensures outcome.Queued? ==>
        |log| == |old(log)| + 1 && CanonicalStage(action, stage, allowlist) == Some(outcome.stage)
      ensures outcome.Invalid? <==> !exists to :: Dispatches(action, stage, allowlist, to)
      ensures outcome.Queued? ==>
        Dispatches(action, stage, allowlist, outcome.stage) && log == old(log) + [Row(run, RunRequested, now.database)]
      ensures forall skew: nat :: Spaced(old(log), skew) && now.host - now.database <= skew ==> Spaced(log, skew)
    {
      forall to
        ensures CanonicalStage(action, stage, allowlist) == Some(to) <==> Dispatches(action, stage, allowlist, to)
      {
        CanonicalStageIff(action, stage, allowlist, to);
      }
      var canonical := CanonicalStage(action, stage, allowlist);
      if canonical.None? {
        return Invalid;
      }
      forall skew: nat | Spaced(log, skew) && now.host - now.database <= skew
        ensures Spaced(Apply(log, Request(run, now)), skew)
      {
        StepKeepsSpaced(log, Request(run, now), skew);
      }
      ActiveJobIs(log, now);
      var active := ActiveJob(log, now);
      if active.Some? && active.value.status == RUNNING {
        return Conflict(active.value);
      }
      log := log + [Row(run, RunRequested, now.database)];
      outcome := Queued(canonical.value);
    }

    /** The abort row is written for any id, whether or not the run exists or is already over. The page
        shows ABORTED from then on unless a row of the run is stamped later than the abort. */
    method AbortOperatorRun(run: RunId, at: int)
      modifies this
      ensures log == Apply(old(log), Abort(run, at))
      ensures Closed(log, run)
      ensures (forall r <- old(log) :: r.run == run ==> r.at <= at) ==> StatusView(log, run) == Some(ABORTED)
      ensures (exists r <- old(log) :: r.run == run && r.at > at) ==> StatusView(log, run) == StatusView(old(log), run)
      ensures forall skew: nat :: Spaced(old(log), skew) ==> Spaced(log, skew)
    {
      forall skew: nat | Spaced(log, skew) ensures Spaced(Apply(log, Abort(run, at)), skew) {
        StepKeepsSpaced(log, Abort(run, at), skew);
      }
      LatestSnoc(log, Row(run, RunAborted, at), run);
      log := log + [Row(run, RunAborted, at)];
      assert log[|log| - 1] in log;
    }
  }
}
