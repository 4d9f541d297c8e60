/** Behavioral holds: the event log of the dispatch sweep, its readings, and what every run of
    autotune passes, crashes and other writers keeps. */
module AutotuneMachine {
  import opened Prelude

  type Engine = string

  /** Hold ids are uuids: never reused. */
  type HoldId = nat

  /** `failureClass` is "behavioral" for the holds of the autotuner. */
  datatype Event =
    | Held(engine: Engine, id: HoldId, failureClass: string)
    | Escalated(engine: Engine, id: HoldId, failureClass: string)
    | Cleared(engine: Engine, id: HoldId)

  const BEHAVIORAL := "behavioral"
  const LOSS_CLUSTER_HOLD_LEN := 5

  /** An open forensics trigger; `streak` is None when the payload's streak_length does not parse. */
  datatype Trigger = Trigger(kind: string, streak: Option<int>)

  function StreakLen(t: Trigger): int {
    if t.streak.Some? then t.streak.value else 0
  }

  predicate HoldEligible(t: Trigger) {
    t.kind == "drawdown_period" || (t.kind == "loss_cluster" && StreakLen(t) >= LOSS_CLUSTER_HOLD_LEN)
  }

  predicate AnyEligible(ts: seq<Trigger>) {
    exists t <- ts :: HoldEligible(t)
  }

  predicate IsHold(e: Event, engine: Engine) {
    e.Held? && e.engine == engine
  }

  predicate IsCleared(log: seq<Event>, id: HoldId) {
    exists j :: 0 <= j < |log| && log[j].Cleared? && log[j].id == id
  }

  /** The position of the latest HELD of an engine. */
  function LatestHold(log: seq<Event>, engine: Engine): (k: Option<nat>)
    ensures k.Some? ==> k.value < |log| && IsHold(log[k.value], engine)
    ensures k.Some? ==> forall i :: k.value < i < |log| ==> !IsHold(log[i], engine)
    ensures k.None? ==> forall i :: 0 <= i < |log| ==> !IsHold(log[i], engine)
  {
    if log == [] then None
    else if IsHold(log[|log| - 1], engine) then Some(|log| - 1)
    else LatestHold(log[..|log| - 1], engine)
  }

  /** `current_hold`: the latest HELD of the engine, unless its id has been cleared. It never looks at
      an older HELD. */
  function CurrentHold(log: seq<Event>, engine: Engine): Option<Event> {
    match LatestHold(log, engine)
    case None => None
    case Some(k) => if IsCleared(log, log[k].id) then None else Some(log[k])
  }

  // ── One pass ─────────────────────────────────────────────────────────────

  /** What `_maybe_clear_behavioral` inserts. */
  function ClearEmits(log: seq<Event>, engine: Engine, open: seq<Trigger>): seq<Event> {
    var hold := CurrentHold(log, engine);
    if hold.Some? && hold.value.failureClass == BEHAVIORAL && !AnyEligible(open)
    then [Cleared(engine, hold.value.id)] else []
  }

  /** What `_decide_and_act` inserts, with the fresh id it draws. */
  function DecideEmits(log: seq<Event>, engine: Engine, open: seq<Trigger>, id: HoldId): seq<Event> {
    if CurrentHold(log, engine).Some? || open == [] then []
    else if AnyEligible(open) then [Escalated(engine, id, BEHAVIORAL), Held(engine, id, BEHAVIORAL)]
    else [Escalated(engine, id, BEHAVIORAL)]
  }

  function Take<T>(s: seq<T>, n: nat): (r: seq<T>)
    ensures r <= s && (n >= |s| ==> r == s)
  {
    if n < |s| then s[..n] else s
  }

  /** The log after a pass in which `budget` inserts get through before something raises. The triggers
      are read twice: `first` for the clear, `second` for the decision. */
  function PassLog(log: seq<Event>, engine: Engine, first: seq<Trigger>, second: seq<Trigger>, id: HoldId, budget: nat)
    : (log': seq<Event>)
    ensures log <= log'
  {
    var clears := ClearEmits(log, engine, first);
    if budget < |clears| then log
    else
      var cleared := log + clears;
      cleared + Take(DecideEmits(cleared, engine, second, id), budget - |clears|)
  }

  /** Nothing raised: every insert of the pass got through. */
  predicate Completes(log: seq<Event>, engine: Engine, first: seq<Trigger>, second: seq<Trigger>, id: HoldId,
      budget: nat) {
    var clears := ClearEmits(log, engine, first);
    budget >= |clears| + |DecideEmits(log + clears, engine, second, id)|
  }

  // ── Runs ─────────────────────────────────────────────────────────────────

  /** `OtherHold` and `OtherClear` are the other writers: the supervisor, the credibility and lifecycle
      pause checks, the operator. They too hold an engine only when it has no current hold, under a
      class that is not the autotuner's, and clear only holds that exist. The supervisor escalates
      before it holds; the pause checks never escalate; either row may be lost to a failed insert.
      `Prune` is the log writer's seven-day retention: it deletes the oldest `n` rows. */
  datatype Step =
    | Pass(engine: Engine, first: seq<Trigger>, second: seq<Trigger>, id: HoldId, budget: nat)
    | OtherHold(engine: Engine, id: HoldId, failureClass: string, escalated: bool, held: bool)
    | OtherClear(k: nat)
    | Prune(n: nat)

  predicate Fresh(log: seq<Event>, id: HoldId) {
    forall e <- log :: e.id != id
  }

  predicate Enabled(log: seq<Event>, s: Step) {
    match s
    case Pass(engine, first, second, id, budget) => Fresh(log, id)
    case OtherHold(engine, id, kind, escalated, held) =>
      Fresh(log, id) && CurrentHold(log, engine).None? && kind != BEHAVIORAL
    case OtherClear(k) => k < |log| && log[k].Held?
    case Prune(n) => n <= |log|
  }

  function Apply(log: seq<Event>, s: Step): seq<Event>
    requires Enabled(log, s)
  {
    match s
    case Pass(engine, first, second, id, budget) => PassLog(log, engine, first, second, id, budget)
    case OtherHold(engine, id, kind, escalated, held) =>
      log + (if escalated then [Escalated(engine, id, kind)] else []) + (if held then [Held(engine, id, kind)] else [])
    case OtherClear(k) => log + [Cleared(log[k].engine, log[k].id)]
    case Prune(n) => log[n..]
  }

  function Exec(steps: seq<Step>): Option<seq<Event>> {
    if steps == [] then Some([])
    else
      match Exec(steps[..|steps| - 1])
      case None => None
      case Some(log) => if Enabled(log, steps[|steps| - 1]) then Some(Apply(log, steps[|steps| - 1])) else None
  }

  /** Every HELD but the latest of its engine has been cleared. */
  ghost predicate OneHold(log: seq<Event>) {
    forall i, j :: 0 <= i < j < |log| && log[i].Held? && log[j].Held? && log[i].engine == log[j].engine
      ==> IsCleared(log, log[i].id)
  }

  /** A hold of the autotuner's own class. */
  predicate Behavioral(e: Event) {
    e.Held? && e.failureClass == BEHAVIORAL
  }

  /** The row before the hold is its ESCALATED. */
  predicate Paired(log: seq<Event>, i: nat)
    requires i < |log| && log[i].Held?
  {
    i > 0 && log[i - 1] == Escalated(log[i].engine, log[i].id, log[i].failureClass)
  }

  /** No hold is cleared before it is made. */
  ghost predicate ClearsFollow(log: seq<Event>) {
    forall i, j :: 0 <= i < j < |log| && log[i].Cleared? && log[j].Held? ==> log[i].id != log[j].id
  }

  ghost predicate HoldInv(log: seq<Event>) {
    && OneHold(log)
    && (forall i :: 0 < i < |log| && Behavioral(log[i]) ==> Paired(log, i))
    && (forall i, j :: 0 <= i < j < |log| && log[i].Held? && log[j].Held? ==> log[i].id != log[j].id)
    && ClearsFollow(log)
  }

  /** Inserting anything but a HELD. */
  lemma QuietSnoc(log: seq<Event>, e: Event)
    requires HoldInv(log) && !e.Held?
    ensures HoldInv(log + [e])
  {
    var longer := log + [e];
    forall i | 0 < i < |longer| && Behavioral(longer[i]) ensures Paired(longer, i) {
      assert Paired(log, i);
    }
    StillCleared(log, e);
  }

  lemma StillCleared(log: seq<Event>, e: Event)
    ensures forall id :: IsCleared(log, id) ==> IsCleared(log + [e], id)
  {
    forall id | IsCleared(log, id) ensures IsCleared(log + [e], id) {
      var j :| 0 <= j < |log| && log[j].Cleared? && log[j].id == id;
      assert (log + [e])[j] == log[j];
    }
  }

  /** A HELD for an engine without a current hold; the autotuner's own needs its ESCALATED in front. */
  lemma HoldSnoc(log: seq<Event>, engine: Engine, id: HoldId, kind: string)
    requires HoldInv(log) && CurrentHold(log, engine).None?
    requires forall e <- log :: e.Held? || e.Cleared? ==> e.id != id
    requires kind == BEHAVIORAL ==> log != [] && log[|log| - 1] == Escalated(engine, id, kind)
    ensures HoldInv(log + [Held(engine, id, kind)])
  {
    var longer := log + [Held(engine, id, kind)];
    StillCleared(log, Held(engine, id, kind));
    forall i | 0 < i < |longer| && Behavioral(longer[i]) ensures Paired(longer, i) {
      if i < |log| {
        assert Paired(log, i);
      }
    }
    forall i, j | 0 <= i < j < |longer| && longer[i].Held? && longer[j].Held? && longer[i].engine == longer[j].engine
      ensures IsCleared(longer, longer[i].id)
    {
      if j == |log| {
        assert IsHold(log[i], engine);
        var k := LatestHold(log, engine).value;
        assert IsCleared(log, log[i].id);
      }
    }
  }

  /** The autotuner's pair of rows. */
  lemma PairSnoc(log: seq<Event>, engine: Engine, id: HoldId, kind: string)
    requires HoldInv(log) && CurrentHold(log, engine).None? && Fresh(log, id)
    ensures HoldInv(log + [Escalated(engine, id, kind)] + [Held(engine, id, kind)])
  {
    var mid := log + [Escalated(engine, id, kind)];
    QuietSnoc(log, Escalated(engine, id, kind));
    QuietHold(log, engine, Escalated(engine, id, kind));
    HoldSnoc(mid, engine, id, kind);
  }

  /** Escalating neither opens nor closes a hold. */
  lemma QuietHold(log: seq<Event>, engine: Engine, e: Event)
    requires e.Escalated?
    ensures CurrentHold(log + [e], engine) == CurrentHold(log, engine)
  {
    assert (log + [e])[..|log|] == log;
    forall id ensures IsCleared(log + [e], id) <==> IsCleared(log, id) {
      if IsCleared(log, id) {
        var j :| 0 <= j < |log| && log[j].Cleared? && log[j].id == id;
        assert (log + [e])[j] == log[j];
      }
    }
    assert LatestHold(log + [e], engine) == LatestHold(log, engine);
  }

  lemma PassKeeps(log: seq<Event>, engine: Engine, first: seq<Trigger>, second: seq<Trigger>, id: HoldId, budget: nat)
    requires HoldInv(log) && Fresh(log, id)
    ensures HoldInv(PassLog(log, engine, first, second, id, budget))
  {
    var clears := ClearEmits(log, engine, first);
    if budget >= |clears| {
      var cleared := log + clears;
      if clears == [] {
        assert cleared == log;
      } else {
        var k := LatestHold(log, engine).value;
        assert log[k] in log;
        QuietSnoc(log, clears[0]);
        assert cleared == log + [clears[0]];
      }
      var emits := Take(DecideEmits(cleared, engine, second, id), budget - |clears|);
      DecisionKeeps(cleared, engine, second, id, emits);
    }
  }

  lemma DecisionKeeps(log: seq<Event>, engine: Engine, open: seq<Trigger>, id: HoldId, emits: seq<Event>)
    requires HoldInv(log) && Fresh(log, id) && emits <= DecideEmits(log, engine, open, id)
    ensures HoldInv(log + emits)
  {
    if emits == [] {
      assert log + emits == log;
    } else if |emits| == 1 {
      assert emits == [Escalated(engine, id, BEHAVIORAL)];
      QuietSnoc(log, Escalated(engine, id, BEHAVIORAL));
    } else {
      assert emits == [Escalated(engine, id, BEHAVIORAL), Held(engine, id, BEHAVIORAL)];
      PairSnoc(log, engine, id, BEHAVIORAL);
      assert log + emits == log + [Escalated(engine, id, BEHAVIORAL)] + [Held(engine, id, BEHAVIORAL)];
    }
  }

  lemma OtherHoldKeeps(log: seq<Event>, engine: Engine, id: HoldId, kind: string, escalated: bool, held: bool)
    requires HoldInv(log) && Enabled(log, OtherHold(engine, id, kind, escalated, held))
    ensures HoldInv(Apply(log, OtherHold(engine, id, kind, escalated, held)))
  {
    var mid := log;
    if escalated {
      mid := log + [Escalated(engine, id, kind)];
      QuietSnoc(log, Escalated(engine, id, kind));
      QuietHold(log, engine, Escalated(engine, id, kind));
    } else {
      assert log + [] == log;
    }
    if held {
      HoldSnoc(mid, engine, id, kind);
    } else {
      assert mid + [] == mid;
    }
  }

  // ── Retention ────────────────────────────────────────────────────────────

  /** A row of the trimmed log clears an id exactly when the full log does, for the holds left in it. */
  lemma PruneCleared(log: seq<Event>, n: nat, i: nat)
    requires ClearsFollow(log) && n <= i < |log| && log[i].Held?
    ensures IsCleared(log[n..], log[i].id) <==> IsCleared(log, log[i].id)
  {
    if IsCleared(log, log[i].id) {
      var j :| 0 <= j < |log| && log[j].Cleared? && log[j].id == log[i].id;
      assert log[n..][j - n] == log[j];
    }
  }

  lemma PruneKeeps(log: seq<Event>, n: nat)
    requires HoldInv(log) && n <= |log|
    ensures HoldInv(log[n..])
  {
    var trimmed := log[n..];
    forall i | 0 < i < |trimmed| && Behavioral(trimmed[i]) ensures Paired(trimmed, i) {
      assert Paired(log, i + n);
    }
    forall i, j |
      0 <= i < j < |trimmed| && trimmed[i].Held? && trimmed[j].Held? && trimmed[i].engine == trimmed[j].engine
      ensures IsCleared(trimmed, trimmed[i].id)
    {
      assert log[i + n] == trimmed[i] && log[j + n] == trimmed[j];
      PruneCleared(log, n, i + n);
    }
  }

  lemma {:induction false} LatestInSuffix(log: seq<Event>, n: nat, engine: Engine)
    requires n <= |log|
    ensures var k := LatestHold(log, engine);
      LatestHold(log[n..], engine) == if k.Some? && k.value >= n then Some(k.value - n) else None
  {
    var trimmed := log[n..];
    if n < |log| {
      assert trimmed[..|trimmed| - 1] == log[..|log| - 1][n..];
      if !IsHold(log[|log| - 1], engine) {
        LatestInSuffix(log[..|log| - 1], n, engine);
      }
    }
  }

  lemma PruneHold(log: seq<Event>, n: nat, engine: Engine)
    requires ClearsFollow(log) && n <= |log|
    ensures CurrentHold(log[n..], engine) ==
      if CurrentHold(log, engine).Some? && LatestHold(log, engine).value >= n then CurrentHold(log, engine) else None
  {
    LatestInSuffix(log, n, engine);
    var k := LatestHold(log, engine);
    if k.Some? && k.value >= n {
      PruneCleared(log, n, k.value);
      assert log[n..][k.value - n] == log[k.value];
    }
  }

  lemma {:induction false} RunKeeps(steps: seq<Step>)
    requires Exec(steps).Some?
    ensures HoldInv(Exec(steps).value)
  {
    if steps != [] {
      var log := Exec(steps[..|steps| - 1]).value;
      RunKeeps(steps[..|steps| - 1]);
      match steps[|steps| - 1]
      case Pass(engine, first, second, id, budget) => PassKeeps(log, engine, first, second, id, budget);
      case OtherHold(engine, id, kind, escalated, held) => OtherHoldKeeps(log, engine, id, kind, escalated, held);
      case OtherClear(k) => QuietSnoc(log, Cleared(log[k].engine, log[k].id));
      case Prune(n) => PruneKeeps(log, n);
    }
  }

  /** Only the retention can leave a behavioral HELD at the head of the log, without its ESCALATED. */
  lemma {:induction false} HeadIsCut(steps: seq<Step>)
    requires Exec(steps).Some? && forall s <- steps :: !s.Prune?
    ensures Exec(steps).value != [] ==> !Behavioral(Exec(steps).value[0])
  {
    if steps != [] {
      var front, last := steps[..|steps| - 1], steps[|steps| - 1];
      HeadIsCut(front);
      assert last in steps;
      var log := Exec(front).value;
      if log == [] && last.Pass? {
        assert Apply(log, last) == [] + Take(DecideEmits([] + [], last.engine, last.second, last.id), last.budget);
      } else if log != [] {
        assert log <= Apply(log, last);
      }
    }
  }

  /** Over every run, with a stop after any insert and rows deleted at any age: an engine has at most one
      uncleared hold, looking only at the latest HELD misses nothing, and a HELD of the autotuner's class
      stands right behind the ESCALATED of its id unless a deletion fell between the two. */
  lemma AtMostOneUnclearedHold(steps: seq<Step>, i: nat, j: nat)
    requires Exec(steps).Some?
    requires var log := Exec(steps).value; i < |log| && j < |log| && log[i].Held? && log[j].Held?
    ensures var log := Exec(steps).value;
      log[i].engine == log[j].engine && !IsCleared(log, log[i].id) && !IsCleared(log, log[j].id) ==> i == j
    ensures var log := Exec(steps).value;
      log[i].failureClass == BEHAVIORAL ==> Paired(log, i) || (i == 0 && exists s <- steps :: s.Prune?)
    ensures var log := Exec(steps).value;
      CurrentHold(log, log[i].engine) == Some(log[i]) <==> !IsCleared(log, log[i].id)
  {
    RunKeeps(steps);
    var log := Exec(steps).value;
    assert Behavioral(log[i]) <==> log[i].failureClass == BEHAVIORAL;
    if i == 0 && Behavioral(log[i]) && forall s <- steps :: !s.Prune? {
      HeadIsCut(steps);
    }
    var k := LatestHold(log, log[i].engine).value;
    if k != i {
      assert IsCleared(log, log[i].id);
      assert log[k].id != log[i].id;
    }
  }

  /** The retention leaves the current hold of an engine standing exactly as long as its HELD is in the
      log; once that row is deleted the engine reads as free, although nothing cleared it. */
  lemma HoldLapsesIff(steps: seq<Step>, n: nat, engine: Engine)
    requires Exec(steps).Some? && n <= |Exec(steps).value| && CurrentHold(Exec(steps).value, engine).Some?
    ensures var log := Exec(steps).value;
      CurrentHold(log[n..], engine) ==
        if LatestHold(log, engine).value >= n then CurrentHold(log, engine) else None
  {
    RunKeeps(steps);
    PruneHold(Exec(steps).value, n, engine);
  }

  lemma ExecSnoc(steps: seq<Step>, s: Step)
    requires Exec(steps).Some? && Enabled(Exec(steps).value, s)
    ensures Exec(steps + [s]) == Some(Apply(Exec(steps).value, s))
  {
    assert (steps + [s])[..|steps|] == steps;
  }

  lemma FirstPass(engine: Engine, open: seq<Trigger>, id: HoldId)
    requires AnyEligible(open)
    ensures Enabled([], Pass(engine, open, open, id, 2))
    ensures Apply([], Pass(engine, open, open, id, 2))
         == [Escalated(engine, id, BEHAVIORAL), Held(engine, id, BEHAVIORAL)]
  {
    assert LatestHold([], engine).None?;
    var none: seq<Event> := [];
    assert ClearEmits([], engine, open) == [] && none + [] == [];
  }

  /** A deletion between the two rows of a hold leaves it without its ESCALATED; one behind them ends the
      hold with no CLEARED and its trigger still open, and the next pass holds the engine anew. */
  lemma RetentionEndsHold(engine: Engine, open: seq<Trigger>, id: HoldId, id': HoldId)
    requires AnyEligible(open)
    ensures var pass, again := Pass(engine, open, open, id, 2), Pass(engine, open, open, id', 2);
      && Exec([pass]) == Some([Escalated(engine, id, BEHAVIORAL), Held(engine, id, BEHAVIORAL)])
      && Exec([pass, Prune(1)]) == Some([Held(engine, id, BEHAVIORAL)])
      && Exec([pass, Prune(2)]) == Some([])
      && Exec([pass, Prune(2), again]) == Some([Escalated(engine, id', BEHAVIORAL), Held(engine, id', BEHAVIORAL)])
  {
    var pass, again := Pass(engine, open, open, id, 2), Pass(engine, open, open, id', 2);
    FirstPass(engine, open, id);
    FirstPass(engine, open, id');
    ExecSnoc([], pass);
    assert [] + [pass] == [pass];
    ExecSnoc([pass], Prune(1));
    ExecSnoc([pass], Prune(2));
    assert [pass] + [Prune(1)] == [pass, Prune(1)] && [pass] + [Prune(2)] == [pass, Prune(2)];
    ExecSnoc([pass, Prune(2)], again);
    assert [pass, Prune(2)] + [again] == [pass, Prune(2), again];
  }

  /** The class matters: a hold of any other class can stand without an ESCALATED, as those of the
      pause checks do. */
  lemma OthersNeedNotEscalate(engine: Engine, id: HoldId, kind: string)
    requires kind != BEHAVIORAL
    ensures Exec([OtherHold(engine, id, kind, false, true)]) == Some([Held(engine, id, kind)])
    ensures CurrentHold([Held(engine, id, kind)], engine) == Some(Held(engine, id, kind))
  {
    var s, log := OtherHold(engine, id, kind, false, true), [Held(engine, id, kind)];
    assert LatestHold([], engine).None?;
    ExecSnoc([], s);
    assert [] + [s] == [s] && Apply([], s) == log;
    assert LatestHold(log, engine) == Some(0) && !IsCleared(log, id);
  }

  // ── A pass interleaved with another writer ───────────────────────────────

  /** The pair a pass decided on when the engine had no hold, inserted behind what others wrote meanwhile,
      keeps one hold per engine exactly when the engine still has none. */
  lemma LatePairIff(log: seq<Event>, engine: Engine, id: HoldId)
    requires HoldInv(log) && Fresh(log, id)
    ensures HoldInv(log + [Escalated(engine, id, BEHAVIORAL)] + [Held(engine, id, BEHAVIORAL)])
       <==> CurrentHold(log, engine).None?
  {
    var longer := log + [Escalated(engine, id, BEHAVIORAL)] + [Held(engine, id, BEHAVIORAL)];
    if CurrentHold(log, engine).None? {
      PairSnoc(log, engine, id, BEHAVIORAL);
    } else {
      var k := LatestHold(log, engine).value;
      assert longer[k] == log[k] && longer[|log| + 1] == Held(engine, id, BEHAVIORAL);
      assert log[k] in log;
      Untouched(log, [Escalated(engine, id, BEHAVIORAL), Held(engine, id, BEHAVIORAL)], log[k].id);
      assert longer == log + [Escalated(engine, id, BEHAVIORAL), Held(engine, id, BEHAVIORAL)];
    }
  }

  /** Otherwise both holds stand, the readers see the later one only, and clearing that one makes the engine
      read as free while the other is still uncleared. */
  lemma LatePairHidesHold(log: seq<Event>, engine: Engine, id: HoldId)
    requires HoldInv(log) && Fresh(log, id) && CurrentHold(log, engine).Some?
    ensures var longer := log + [Escalated(engine, id, BEHAVIORAL)] + [Held(engine, id, BEHAVIORAL)];
      var first := CurrentHold(log, engine).value;
      && CurrentHold(longer, engine) == Some(Held(engine, id, BEHAVIORAL))
      && first in longer && !IsCleared(longer, first.id)
      && CurrentHold(longer + [Cleared(engine, id)], engine).None?
      && !IsCleared(longer + [Cleared(engine, id)], first.id)
  {
    var longer := log + [Escalated(engine, id, BEHAVIORAL)] + [Held(engine, id, BEHAVIORAL)];
    var cleared, k := longer + [Cleared(engine, id)], LatestHold(log, engine).value;
    var pair := [Escalated(engine, id, BEHAVIORAL), Held(engine, id, BEHAVIORAL)];
    assert log[k] in log && longer[k] == log[k];
    assert longer == log + pair && cleared == log + (pair + [Cleared(engine, id)]);
    Untouched(log, pair, log[k].id);
    Untouched(log, pair + [Cleared(engine, id)], log[k].id);
    NotClearedYet(log, pair, id);
    assert cleared[|longer|] == Cleared(engine, id);
    assert cleared[..|cleared| - 1] == longer;
  }

  lemma Untouched(log: seq<Event>, more: seq<Event>, id: HoldId)
    requires forall e <- more :: e.id != id
    ensures IsCleared(log + more, id) <==> IsCleared(log, id)
  {
    var longer := log + more;
    if IsCleared(log, id) {
      var j :| 0 <= j < |log| && log[j].Cleared? && log[j].id == id;
      assert longer[j] == log[j];
    }
    if IsCleared(longer, id) {
      var j :| 0 <= j < |longer| && longer[j].Cleared? && longer[j].id == id;
      if j >= |log| {
        assert longer[j] in more;
      }
    }
  }

  lemma NotClearedYet(log: seq<Event>, more: seq<Event>, id: HoldId)
    requires Fresh(log, id) && forall e <- more :: !e.Cleared?
    ensures !IsCleared(log + more, id)
  {
    var longer := log + more;
    forall e | e in longer ensures e in log || e in more {
    }
    forall j | 0 <= j < |longer| && longer[j].Cleared? ensures longer[j].id != id {
      assert longer[j] in longer;
    }
  }
}
