/** The autotune pass: the inserts of the source as methods on the event log, and what a completed
    pass establishes. */
module AarAutotune {
  import opened Prelude
  import opened AutotuneMachine

  /** The log a pass writes to. `insertsLeft` is how many inserts get through before one raises. */
  class HoldLog {
    var log: seq<Event>
    var insertsLeft: nat

    constructor (log: seq<Event>, insertsLeft: nat)
      ensures this.log == log && this.insertsLeft == insertsLeft
    {
      this.log, this.insertsLeft := log, insertsLeft;
    }

    method Emit(e: Event) returns (raised: bool)
      modifies this
      ensures raised <==> old(insertsLeft) == 0
      ensures log == if raised then old(log) else old(log) + [e]
      ensures insertsLeft == if raised then 0 else old(insertsLeft) - 1
    {
      if insertsLeft == 0 {
        return true;
      }
      log := log + [e];
      insertsLeft := insertsLeft - 1;
      raised := false;
    }

    method MaybeClearBehavioral(engine: Engine, open: seq<Trigger>) returns (raised: bool)
      modifies this
      ensures var clears := ClearEmits(old(log), engine, open);
        && (raised <==> old(insertsLeft) < |clears|)
        && log == (if raised then old(log) else old(log) + clears)
        && insertsLeft == (if raised then 0 else old(insertsLeft) - |clears|)
    {
      raised := false;
      var hold := CurrentHold(log, engine);
      if hold.None? || hold.value.failureClass != BEHAVIORAL {
        return;
      }
      if AnyEligible(open) {
        return;
      }
      raised := Emit(Cleared(engine, hold.value.id));
    }

    method DecideAndAct(engine: Engine, open: seq<Trigger>, id: HoldId) returns (raised: bool)
      modifies this
      ensures log == old(log) + Take(DecideEmits(old(log), engine, open, id), old(insertsLeft))
      ensures raised <==> old(insertsLeft) < |DecideEmits(old(log), engine, open, id)|
      ensures CurrentHold(old(log), engine).Some? || open == [] ==> log == old(log)
      ensures CurrentHold(old(log), engine).None? && open != [] && old(insertsLeft) >= 2 ==>
        log == old(log) + [Escalated(engine, id, "behavioral")]
                        + if Systemic(open) then [Held(engine, id, "behavioral")] else []
    {
      EligibleIsSystemic(open);
      raised := false;
      if CurrentHold(log, engine).Some? {
        return;
      }
      if open == [] {
        return;
      }
      var holdEligible := Filter(open, HoldEligible);
      FilterMembers(open, HoldEligible);
      if holdEligible != [] {
        assert holdEligible[0] in open;
        raised := Emit(Escalated(engine, id, BEHAVIORAL));
        if raised {
          return;
        }
        raised := Emit(Held(engine, id, BEHAVIORAL));
        return;
      }
      raised := Emit(Escalated(engine, id, BEHAVIORAL));
    }

    /** The crash-isolated pass: an exception ends it and is swallowed. */
    method Autotune(engine: Engine, first: seq<Trigger>, second: seq<Trigger>, id: HoldId)
      modifies this
      ensures log == PassLog(old(log), engine, first, second, id, old(insertsLeft))
      ensures HoldInv(old(log)) && Fresh(old(log), id) ==> HoldInv(log)
    {
      ghost var before, budget := log, insertsLeft;
      var raised := MaybeClearBehavioral(engine, first);
      if !raised {
        raised := DecideAndAct(engine, second, id);
      }
      if HoldInv(before) && Fresh(before, id) {
        PassKeeps(before, engine, first, second, id, budget);
      }
    }
  }

  // ── Which triggers hold an engine ────────────────────────────────────────

  /** An open drawdown period, or an open loss cluster whose streak reads as five losses or more: the others
      are noise. */
  predicate Systemic(open: seq<Trigger>) {
    exists t <- open ::
      t.kind == "drawdown_period" || (t.kind == "loss_cluster" && t.streak.Some? && t.streak.value > 4)
  }

  lemma EligibleIsSystemic(open: seq<Trigger>)
    ensures AnyEligible(open) <==> Systemic(open)
  {
    if AnyEligible(open) {
      var t :| t in open && HoldEligible(t);
    }
    if Systemic(open) {
      var t :| t in open
        && (t.kind == "drawdown_period" || (t.kind == "loss_cluster" && t.streak.Some? && t.streak.value > 4));
      assert HoldEligible(t);
    }
  }

  // ── What a completed pass establishes ────────────────────────────────────

  lemma HeldLast(log: seq<Event>, engine: Engine, id: HoldId)
    requires Fresh(log, id)
    ensures CurrentHold(log + [Escalated(engine, id, BEHAVIORAL), Held(engine, id, BEHAVIORAL)], engine)
         == Some(Held(engine, id, BEHAVIORAL))
  {
    var longer := log + [Escalated(engine, id, BEHAVIORAL), Held(engine, id, BEHAVIORAL)];
    forall j | 0 <= j < |longer| ensures !(longer[j].Cleared? && longer[j].id == id) {
      if j < |log| {
        assert longer[j] == log[j] && log[j] in log;
      }
    }
    assert !IsCleared(longer, id);
  }

  lemma ClearedHold(log: seq<Event>, engine: Engine, open: seq<Trigger>)
    requires ClearEmits(log, engine, open) != []
    ensures CurrentHold(log + ClearEmits(log, engine, open), engine).None?
  {
    var k := LatestHold(log, engine).value;
    var longer := log + [Cleared(engine, log[k].id)];
    assert longer[..|log|] == log && longer[|log|] == Cleared(engine, log[k].id);
    assert IsCleared(longer, log[k].id);
    assert LatestHold(longer, engine) == LatestHold(log, engine);
  }

  lemma DecisionSettles(log: seq<Event>, engine: Engine, open: seq<Trigger>, id: HoldId)
    requires Fresh(log, id)
    ensures CurrentHold(log + DecideEmits(log, engine, open, id), engine) ==
      if CurrentHold(log, engine).Some? then CurrentHold(log, engine)
      else if AnyEligible(open) then Some(Held(engine, id, BEHAVIORAL))
      else None
  {
    if CurrentHold(log, engine).None? && AnyEligible(open) {
      HeldLast(log, engine, id);
    } else if CurrentHold(log, engine).None? && open != [] {
      QuietHold(log, engine, Escalated(engine, id, BEHAVIORAL));
    } else {
      assert log + [] == log;
    }
  }

  /** What a completed pass leaves behind, the triggers being read once for the clear and once more for
      the decision: a hold of another class, or a behavioral one with a hold-eligible trigger in the
      first reading, stands as it was; in every other case the engine is held, freshly and
      behaviorally, if and only if the second reading has a hold-eligible trigger. */
  lemma PassSettles(log: seq<Event>, engine: Engine, first: seq<Trigger>, second: seq<Trigger>, id: HoldId, budget: nat)
    requires Fresh(log, id) && Completes(log, engine, first, second, id, budget)
    ensures var hold := CurrentHold(log, engine);
      CurrentHold(PassLog(log, engine, first, second, id, budget), engine) ==
        if hold.Some? && (hold.value.failureClass != "behavioral" || Systemic(first)) then hold
        else if Systemic(second) then Some(Held(engine, id, "behavioral"))
        else None
  {
    EligibleIsSystemic(first);
    EligibleIsSystemic(second);
    var clears := ClearEmits(log, engine, first);
    var cleared := log + clears;
    if clears == [] {
      assert cleared == log;
    } else {
      ClearedHold(log, engine, first);
      var k := LatestHold(log, engine).value;
      assert log[k] in log;
    }
    DecisionSettles(cleared, engine, second, id);
    assert cleared + DecideEmits(cleared, engine, second, id) == PassLog(log, engine, first, second, id, budget);
  }

  /** With one unchanged trigger set a completed pass settles the engine: unless another class's hold
      stands, it is held exactly when a hold-eligible trigger is open. */
  lemma SteadyPassSettles(log: seq<Event>, engine: Engine, open: seq<Trigger>, id: HoldId, budget: nat)
    requires Fresh(log, id) && Completes(log, engine, open, open, id, budget)
    ensures var hold := CurrentHold(log, engine);
      var hold' := CurrentHold(PassLog(log, engine, open, open, id, budget), engine);
      if hold.Some? && hold.value.failureClass != BEHAVIORAL
      then hold' == hold && PassLog(log, engine, open, open, id, budget) == log
      else (hold'.Some? <==> Systemic(open)) && (hold'.Some? ==> hold'.value.failureClass == BEHAVIORAL)
  {
    PassSettles(log, engine, open, open, id, budget);
  }

  /** A pass, complete or not, clears only a behavioral hold that was current, and only when the
      triggers it read hold no hold-eligible one. */
  lemma ClearsOnlyBehavioral(log: seq<Event>, engine: Engine, first: seq<Trigger>, second: seq<Trigger>, id: HoldId,
      budget: nat, i: nat)
    requires var after := PassLog(log, engine, first, second, id, budget); |log| <= i < |after| && after[i].Cleared?
    ensures var after := PassLog(log, engine, first, second, id, budget);
      && i == |log| && !Systemic(first)
      && CurrentHold(log, engine).Some? && CurrentHold(log, engine).value.failureClass == BEHAVIORAL
      && after[i] == Cleared(engine, CurrentHold(log, engine).value.id)
  {
    EligibleIsSystemic(first);
  }

  /** A second completed pass over the same triggers holds nothing and clears nothing. It inserts
      nothing at all, except that escalate-only triggers are escalated again on every pass. */
  lemma RepeatPassIsQuiet(log: seq<Event>, engine: Engine, open: seq<Trigger>, id: HoldId, budget: nat, id': HoldId,
      budget': nat)
    requires Fresh(log, id) && Completes(log, engine, open, open, id, budget)
    requires var once := PassLog(log, engine, open, open, id, budget);
      Fresh(once, id') && Completes(once, engine, open, open, id', budget')
    ensures var once := PassLog(log, engine, open, open, id, budget);
      PassLog(once, engine, open, open, id', budget') ==
        if CurrentHold(once, engine).None? && open != [] then once + [Escalated(engine, id', BEHAVIORAL)] else once
  {
    PassSettles(log, engine, open, open, id, budget);
    var once := PassLog(log, engine, open, open, id, budget);
    assert ClearEmits(once, engine, open) == [];
    assert once + [] == once;
  }
}
