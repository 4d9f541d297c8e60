/** The lock protocol at the grain of single file-system operations: mkdir, read the pid file, remove the
    tree, mkdir again, write the pid file. Processes start, crash anywhere and leave through the shutdown
    release; a pid may be handed out again. */
module LockRace {
  import opened Prelude

  type Pid = nat

  /** The lock directory: absent, without a pid file, or naming a process. */
  datatype Dir = Absent | NoPid | Names(pid: Pid)

  /** Where a live process stands in its acquire. */
  datatype At =
    | Outside
    | Refused     // mkdir failed, about to read the pid file
    | Reclaiming  // the pid file was empty, missing or named a dead process
    | Removed     // the tree is gone, about to mkdir again
    | Made        // mkdir succeeded, the pid file is not written yet
    | Inside      // healing
    | Leaving     // shutting down, having read its own pid in the directory

  datatype State = State(dir: Dir, at: map<Pid, At>)

  /** `OwnCheck` and `OwnRmtree` are the two halves of the shutdown release. */
  datatype Op = Mkdir | Probe | Rmtree | MkdirAgain | WritePid | Release | OwnCheck | OwnRmtree | Start | Crash

  predicate Live(s: State, p: Pid) {
    p in s.at
  }

  /** The location at which a process performs an operation. */
  function Site(op: Op): At
    requires op != Start && op != Crash
  {
    match op
    case Mkdir => Outside
    case Probe => Refused
    case Rmtree => Reclaiming
    case MkdirAgain => Removed
    case WritePid => Made
    case Release => Inside
    case OwnCheck => Outside
    case OwnRmtree => Leaving
  }

  predicate Can(s: State, p: Pid, op: Op) {
    if op == Start then !Live(s, p) else Live(s, p) && (op == Crash || s.at[p] == Site(op))
  }

  function Do(s: State, p: Pid, op: Op): State
    requires Can(s, p, op)
  {
    match op
    case Mkdir => if s.dir.Absent? then State(NoPid, s.at[p := Made]) else State(s.dir, s.at[p := Refused])
    case Probe =>
      if s.dir.Names? && Live(s, s.dir.pid) then State(s.dir, s.at[p := Outside])  // deferred
      else State(s.dir, s.at[p := Reclaiming])
    case Rmtree => State(Absent, s.at[p := Removed])
    case MkdirAgain => if s.dir.Absent? then State(NoPid, s.at[p := Made]) else State(s.dir, s.at[p := Outside])
    case WritePid => if s.dir.Absent? then State(s.dir, s.at[p := Outside]) else State(Names(p), s.at[p := Inside])
    case Release => State(Absent, s.at[p := Outside])
    case OwnCheck => if s.dir == Names(p) then State(s.dir, s.at[p := Leaving]) else State(s.dir, s.at - {p})
    case OwnRmtree => State(Absent, s.at - {p})
    case Start => State(s.dir, s.at[p := Outside])
    case Crash => State(s.dir, s.at - {p})
  }

  /** A schedule: which process performs which operation, in order. */
  function Play(s: State, ops: seq<(Pid, Op)>): Option<State>
    decreases |ops|
  {
    if ops == [] then Some(s)
    else if !Can(s, ops[0].0, ops[0].1) then None
    else Play(Do(s, ops[0].0, ops[0].1), ops[1..])
  }

  lemma PlayOne(s: State, p: Pid, op: Op, rest: seq<(Pid, Op)>)
    requires Can(s, p, op)
    ensures Play(s, [(p, op)] + rest) == Play(Do(s, p, op), rest)
  {
    assert ([(p, op)] + rest)[1..] == rest;
  }

  /** The window between mkdir and the pid write lets a second process take the directory for a
      stale one: both end up inside. */
  lemma PidlessWindowAdmitsTwo() returns (ops: seq<(Pid, Op)>)
    ensures var end := Play(State(Absent, map[1 := Outside, 2 := Outside]), ops);
      end.Some? && end.value.at == map[1 := Inside, 2 := Inside]
  {
    var s0 := State(Absent, map[1 := Outside, 2 := Outside]);
    var s1 := Do(s0, 1, Mkdir);
    var s2 := Do(Do(s1, 2, Mkdir), 2, Probe);
    var s3 := State(Names(2), s2.at[2 := Inside]);
    var s4 := Do(s3, 1, WritePid);
    var last := [(1, WritePid)];
    assert s4.at == map[1 := Inside, 2 := Inside];
    PlayOne(s3, 1, WritePid, []);
    assert last == [(1, WritePid)] + [] && Play(s3, last) == Some(s4);
    var reclaim := ReclaimOps(2);
    Reclaim(s2, 2);
    PlayConcat(s2, reclaim, last);
    PlayOne(Do(s1, 2, Mkdir), 2, Probe, reclaim + last);
    PlayOne(s1, 2, Mkdir, [(2, Probe)] + (reclaim + last));
    PlayOne(s0, 1, Mkdir, [(2, Mkdir)] + ([(2, Probe)] + (reclaim + last)));
    ops := [(1, Mkdir)] + ([(2, Mkdir)] + ([(2, Probe)] + (reclaim + last)));
  }

  const JUDGED := [(1, Mkdir), (2, Mkdir), (1, Probe), (2, Probe)]

  lemma BothJudgeDead()
    ensures Play(State(Names(3), map[1 := Outside, 2 := Outside]), JUDGED)
         == Some(State(Names(3), map[1 := Reclaiming, 2 := Reclaiming]))
  {
    var s0 := State(Names(3), map[1 := Outside, 2 := Outside]);
    var a := Do(s0, 1, Mkdir);
    var b := Do(a, 2, Mkdir);
    var c := Do(b, 1, Probe);
    PlayOne(c, 2, Probe, []);
    PlayOne(b, 1, Probe, [(2, Probe)] + []);
    PlayOne(a, 2, Mkdir, [(1, Probe)] + ([(2, Probe)] + []));
    PlayOne(s0, 1, Mkdir, [(2, Mkdir)] + ([(1, Probe)] + ([(2, Probe)] + [])));
    assert JUDGED == [(1, Mkdir)] + ([(2, Mkdir)] + ([(1, Probe)] + ([(2, Probe)] + [])));
    assert Do(c, 2, Probe).at == map[1 := Reclaiming, 2 := Reclaiming];
  }

  function ReclaimOps(p: Pid): seq<(Pid, Op)> {
    [(p, Rmtree), (p, MkdirAgain), (p, WritePid)]
  }

  lemma BothReclaim(s: State, p: Pid, q: Pid)
    requires p != q && Live(s, p) && Live(s, q) && s.at[p] == s.at[q] == Reclaiming
    ensures Play(s, ReclaimOps(p) + ReclaimOps(q)) == Some(State(Names(q), s.at[p := Inside][q := Inside]))
  {
    Reclaim(s, p);
    Reclaim(State(Names(p), s.at[p := Inside]), q);
    PlayConcat(s, ReclaimOps(p), ReclaimOps(q));
  }

  /** A process that has already judged the holder dead removes a fresh, live lock as well: even
      with the pid written at once, probe and removal must not be separated. */
  lemma StaleVerdictRemovesLiveLock() returns (ops: seq<(Pid, Op)>)
    ensures var end := Play(State(Names(3), map[1 := Outside, 2 := Outside]), ops);
      end.Some? && end.value.at == map[1 := Inside, 2 := Inside]
  {
    var start := State(Names(3), map[1 := Outside, 2 := Outside]);
    var judged := State(Names(3), map[1 := Reclaiming, 2 := Reclaiming]);
    BothJudgeDead();
    BothReclaim(judged, 1, 2);
    PlayConcat(start, JUDGED, ReclaimOps(1) + ReclaimOps(2));
    ops := JUDGED + (ReclaimOps(1) + ReclaimOps(2));
  }

  /** An uninterrupted reclaim succeeds whatever the directory says by then. */
  lemma Reclaim(s: State, p: Pid)
    requires Live(s, p) && s.at[p] == Reclaiming
    ensures Play(s, ReclaimOps(p)) == Some(State(Names(p), s.at[p := Inside]))
  {
    var a := Do(s, p, Rmtree);
    var b := Do(a, p, MkdirAgain);
    PlayOne(b, p, WritePid, []);
    PlayOne(a, p, MkdirAgain, [(p, WritePid)] + []);
    PlayOne(s, p, Rmtree, [(p, MkdirAgain)] + ([(p, WritePid)] + []));
    assert ReclaimOps(p)
        == [(p, Rmtree)] + ([(p, MkdirAgain)] + ([(p, WritePid)] + []));
    assert Do(b, p, WritePid).at == s.at[p := Inside];
  }

  lemma {:induction false} PlayConcat(s: State, a: seq<(Pid, Op)>, b: seq<(Pid, Op)>)
    requires Play(s, a).Some?
    ensures Play(s, a + b) == Play(Play(s, a).value, b)
    decreases |a|
  {
    if a == [] {
      assert a + b == b;
    } else {
      assert (a + b)[1..] == a[1..] + b;
      PlayConcat(Do(s, a[0].0, a[0].1), a[1..], b);
    }
  }

  /** The operations of one acquire that nobody interrupts. */
  function Acquire(s: State, p: Pid): seq<(Pid, Op)> {
    if s.dir.Absent? then [(p, Mkdir), (p, WritePid)]
    else if s.dir.Names? && Live(s, s.dir.pid) then [(p, Mkdir), (p, Probe)]
    else [(p, Mkdir), (p, Probe), (p, Rmtree), (p, MkdirAgain), (p, WritePid)]
  }

  /** Uninterrupted, the five operations behave as the one atomic step of the protocol: the process
      gets in exactly when no live process is named, and otherwise nothing has changed. */
  lemma UninterruptedAcquireIsAtomic(s: State, p: Pid)
    requires Live(s, p) && s.at[p] == Outside
    ensures Play(s, Acquire(s, p)) ==
      if s.dir.Names? && Live(s, s.dir.pid) then Some(s)
      else Some(State(Names(p), s.at[p := Inside]))
  {
    var a := Do(s, p, Mkdir);
    if s.dir.Absent? {
      PlayOne(a, p, WritePid, []);
      PlayOne(s, p, Mkdir, [(p, WritePid)] + []);
      assert [(p, Mkdir), (p, WritePid)] == [(p, Mkdir)] + ([(p, WritePid)] + []);
      assert Do(a, p, WritePid).at == s.at[p := Inside];
    } else if s.dir.Names? && Live(s, s.dir.pid) {
      PlayOne(a, p, Probe, []);
      PlayOne(s, p, Mkdir, [(p, Probe)] + []);
      assert [(p, Mkdir), (p, Probe)] == [(p, Mkdir)] + ([(p, Probe)] + []);
      assert Do(a, p, Probe).at == s.at;
    } else {
      var b := Do(a, p, Probe);
      var rest := ReclaimOps(p);
      Reclaim(b, p);
      PlayOne(a, p, Probe, rest);
      PlayOne(s, p, Mkdir, [(p, Probe)] + rest);
      assert Acquire(s, p) == [(p, Mkdir)] + ([(p, Probe)] + rest);
      assert b.at[p := Inside] == s.at[p := Inside];
    }
  }

  // ── Exactly what mutual exclusion rests on ───────────────────────────────

  /** Past its mkdir and not yet released. */
  predicate Critical(s: State, p: Pid) {
    Live(s, p) && (s.at[p].Made? || s.at[p].Inside?)
  }

  /** At most one process is critical, and the directory is there while one is. */
  predicate Sound(s: State) {
    && (forall p <- s.at, q <- s.at :: Critical(s, p) && Critical(s, q) ==> p == q)
    && (forall p <- s.at :: Critical(s, p) ==> !s.dir.Absent?)
  }

  predicate Removes(op: Op) {
    op == Rmtree || op == Release || op == OwnRmtree
  }

  /** An operation that does not remove the directory while another process is critical. */
  predicate Quiet(s: State, p: Pid, op: Op) {
    Removes(op) ==> forall q <- s.at :: Critical(s, q) ==> q == p
  }

  /** A schedule all of whose operations are quiet when their turn comes. */
  predicate QuietThroughout(s: State, ops: seq<(Pid, Op)>)
    decreases |ops|
  {
    ops != [] && Can(s, ops[0].0, ops[0].1) ==>
      Quiet(s, ops[0].0, ops[0].1) && QuietThroughout(Do(s, ops[0].0, ops[0].1), ops[1..])
  }

  lemma QuietStep(s: State, p: Pid, op: Op)
    requires Sound(s) && Can(s, p, op) && Quiet(s, p, op)
    ensures Sound(Do(s, p, op))
  {
    var s' := Do(s, p, op);
    forall q | q != p ensures Critical(s', q) <==> Critical(s, q) {
    }
    assert Critical(s, p) ==> op == WritePid || op == Release || op == Crash;
  }

  /** The unconditional release never removes the directory under another critical process: only a reclaim
      and the shutdown release can. */
  lemma ReleaseIsQuiet(s: State, p: Pid)
    requires Sound(s) && Can(s, p, Release)
    ensures Quiet(s, p, Release)
  {
    assert Critical(s, p);
  }

  /** Over any schedule of any processes, those that start, crash and leave in it included: if no removal
      runs while another process is critical, there are never two inside. */
  lemma {:induction false} QuietSchedulesExclude(s: State, ops: seq<(Pid, Op)>)
    requires Sound(s) && QuietThroughout(s, ops) && Play(s, ops).Some?
    ensures Sound(Play(s, ops).value)
    decreases |ops|
  {
    if ops != [] {
      QuietStep(s, ops[0].0, ops[0].1);
      QuietSchedulesExclude(Do(s, ops[0].0, ops[0].1), ops[1..]);
    }
  }

  /** What can happen after a removal under a critical process `q`: a new process `r` makes the directory
      anew, and both write their pid into it. */
  function BothIn(s: State, r: Pid, q: Pid): seq<(Pid, Op)>
    requires Critical(s, q)
  {
    [(r, Start), (r, Mkdir)] + (if s.at[q].Made? then [(q, WritePid), (r, WritePid)] else [(r, WritePid)])
  }

  lemma QuietOne(s: State, p: Pid, op: Op, rest: seq<(Pid, Op)>)
    requires Can(s, p, op) && Quiet(s, p, op) && QuietThroughout(Do(s, p, op), rest)
    ensures QuietThroughout(s, [(p, op)] + rest) && Play(s, [(p, op)] + rest) == Play(Do(s, p, op), rest)
  {
    assert ([(p, op)] + rest)[1..] == rest;
  }

  lemma NewcomerGetsIn(s: State, r: Pid, q: Pid)
    requires s.dir.Absent? && Critical(s, q) && !Live(s, r)
    ensures QuietThroughout(s, BothIn(s, r, q))
    ensures Play(s, BothIn(s, r, q)) == Some(State(Names(r), s.at[q := Inside][r := Inside]))
  {
    var a := Do(s, r, Start);
    var b := Do(a, r, Mkdir);
    if s.at[q].Made? {
      var c := Do(b, q, WritePid);
      QuietOne(c, r, WritePid, []);
      QuietOne(b, q, WritePid, [(r, WritePid)] + []);
      QuietOne(a, r, Mkdir, [(q, WritePid)] + ([(r, WritePid)] + []));
      QuietOne(s, r, Start, [(r, Mkdir)] + ([(q, WritePid)] + ([(r, WritePid)] + [])));
      assert BothIn(s, r, q) == [(r, Start)] + ([(r, Mkdir)] + ([(q, WritePid)] + ([(r, WritePid)] + [])));
      assert Do(c, r, WritePid).at == s.at[q := Inside][r := Inside];
    } else {
      QuietOne(b, r, WritePid, []);
      QuietOne(a, r, Mkdir, [(r, WritePid)] + []);
      QuietOne(s, r, Start, [(r, Mkdir)] + ([(r, WritePid)] + []));
      assert BothIn(s, r, q) == [(r, Start)] + ([(r, Mkdir)] + ([(r, WritePid)] + []));
      assert Do(b, r, WritePid).at == s.at[q := Inside][r := Inside];
    }
  }

  lemma {:induction false} SomeNewcomer(procs: set<Pid>) returns (r: Pid)
    ensures forall p <- procs :: p < r
  {
    if procs == {} {
      r := 0;
    } else {
      var any :| any in procs;
      var rest := SomeNewcomer(procs - {any});
      r := if any < rest then rest else any + 1;
      assert forall p <- procs :: p == any || p in procs - {any};
    }
  }

  /** No quiet continuation brings two processes inside. */
  ghost predicate Exclusive(s: State) {
    forall ops: seq<(Pid, Op)> :: QuietThroughout(s, ops) && Play(s, ops).Some? ==>
      forall p, q :: Critical(Play(s, ops).value, p) && Critical(Play(s, ops).value, q) ==> p == q
  }

  /** Mutual exclusion survives an operation exactly when the operation does not remove the directory
      while another process is critical. */
  lemma OnlyLoudRemovalsBreakIt(s: State, p: Pid, op: Op)
    requires Sound(s) && Can(s, p, op)
    ensures Exclusive(Do(s, p, op)) <==> Quiet(s, p, op)
  {
    var after := Do(s, p, op);
    if Quiet(s, p, op) {
      QuietStep(s, p, op);
      forall ops: seq<(Pid, Op)> | QuietThroughout(after, ops) && Play(after, ops).Some?
        ensures Sound(Play(after, ops).value)
      {
        QuietSchedulesExclude(after, ops);
      }
    } else {
      var q :| q in s.at && Critical(s, q) && q != p;
      var r := SomeNewcomer(after.at.Keys);
      assert Critical(after, q);
      NewcomerGetsIn(after, r, q);
      var end := Play(after, BothIn(after, r, q)).value;
      assert Critical(end, r) && Critical(end, q) && r != q;
    }
  }
}
