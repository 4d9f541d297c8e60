/** Which terminal a request gets, from what validation and self-heal report about it. */
module RepairVerdict {
  import opened Prelude
  import opened RedChecks
  import opened RepairLog

  /** What `run_self_heal` returns: iterations spent, and (source, reason) escalations in order. */
  datatype HealOutcome = HealOutcome(iterations: int, escalated: seq<(string, string)>)

  datatype Attempt<+T> = Got(value: T) | Raised

  /** An insert that raised may or may not have reached the table. */
  datatype EmitFate = Committed | LostBefore | LostAfter

  /** Everything outside the daemon that handling one request touches. */
  datatype HealIo = HealIo(
    lookupFails: bool,
    rc: Attempt<int>,
    before: Attempt<set<string>>,
    outcome: Attempt<HealOutcome>,
    after: Attempt<set<string>>,
    emit: EmitFate)

  predicate EscalatedSource(outcome: HealOutcome, s: string) {
    exists i :: 0 <= i < |outcome.escalated| && outcome.escalated[i].0 == s
  }

  /** The reason recorded last for a source. */
  function LastReason(escalated: seq<(string, string)>, s: string): string {
    if escalated == [] then ""
    else if escalated[|escalated| - 1].0 == s then escalated[|escalated| - 1].1
    else LastReason(escalated[..|escalated| - 1], s)
  }

  function ReasonsFor(outcome: HealOutcome, sources: seq<string>): (r: seq<string>)
    ensures |r| == |sources|
  {
    seq(|sources|, i requires 0 <= i < |sources| => LastReason(outcome.escalated, sources[i]))
  }

  /** The terminal for a well-formed request, or None when a read before it raised. */
  function Verdict(reg: Registry, id: string, requested: seq<string>, io: HealIo): Option<Reply> {
    if io.rc.Raised? then None
    else if io.rc.value != 0 then Some(Escalated(id, requested, ValidationExited(io.rc.value), 0))
    else if io.before.Raised? then None
    else if StillRed(reg, requested, io.before.value) == [] then Some(Complete(id, requested, [], true))
    else if io.outcome.Raised? || io.after.Raised? then None
    else
      var still := StillRed(reg, requested, io.after.value);
      var healed := Filter(requested, s => s !in still);
      var attributable := Filter(still, s => EscalatedSource(io.outcome.value, s));
      if still == [] then Some(Complete(id, requested, [], true))
      else if attributable != [] then
        Some(Escalated(id, still, HealReasons(ReasonsFor(io.outcome.value, attributable)), io.outcome.value.iterations))
      else Some(Complete(id, healed, still, |still| == 0))
  }

  lemma {:induction false} FilterSplits<T>(s: seq<T>, p: T -> bool, q: T -> bool)
    requires forall x <- s :: p(x) <==> !q(x)
    ensures multiset(s) == multiset(Filter(s, p)) + multiset(Filter(s, q))
  {
    if s != [] {
      assert s == [s[0]] + s[1..];
      FilterSplits(s[1..], p, q);
    }
  }

  lemma Splits(requested: seq<string>, still: seq<string>, p: string -> bool)
    requires still == Filter(requested, p)
    ensures still == Filter(requested, s => s in still)
    ensures multiset(requested) == multiset(Filter(requested, s => s !in still)) + multiset(still)
    ensures still == [] ==> Filter(requested, s => s !in still) == requested
    ensures still == [] <==> forall s <- requested :: s in Filter(requested, s => s !in still)
  {
    FilterMembers(requested, p);
    FilterMembers(requested, s => s !in still);
    FilterSame(requested, p, s => s in still);
    FilterSplits(requested, s => s !in still, s => s in still);
    if still == [] {
      FilterAll(requested, s => s !in still);
    } else {
      assert still[0] in requested && still[0] !in Filter(requested, s => s !in still);
    }
  }

  /** A COMPLETE reply splits the requested list, in its own order, into healed and still-red
      sources, and is green exactly when every requested source is among the healed. */
  lemma CompleteConserves(reg: Registry, id: string, requested: seq<string>, io: HealIo)
    requires var v := Verdict(reg, id, requested, io); v.Some? && v.value.Complete?
    ensures var v := Verdict(reg, id, requested, io).value;
      && v.id == id
      && v.healed == Filter(requested, s => s !in v.stillRed)
      && v.stillRed == Filter(requested, s => s in v.stillRed)
      && multiset(requested) == multiset(v.healed) + multiset(v.stillRed)
      && (v.green <==> forall s <- requested :: s in v.healed)
  {
    var v := Verdict(reg, id, requested, io).value;
    if StillRed(reg, requested, io.before.value) == [] {
      Splits(requested, v.stillRed, s => IsRed(reg, io.before.value, s));
    } else {
      var still := StillRed(reg, requested, io.after.value);
      Splits(requested, v.stillRed, s => IsRed(reg, io.after.value, s));
      FilterSame(requested, s => s !in still, s => s !in v.stillRed);
    }
  }

  /** After a heal the request is escalated if and only if some requested source that is still
      red was escalated by the healer; the reply then names exactly the still-red sources. */
  lemma EscalatesIffAttributable(reg: Registry, id: string, requested: seq<string>, io: HealIo)
    requires io.rc == Got(0) && io.before.Got? && StillRed(reg, requested, io.before.value) != []
    requires io.outcome.Got? && io.after.Got?
    ensures var v := Verdict(reg, id, requested, io);
      && v.Some?
      && (v.value.Escalated? <==>
            exists s <- requested :: IsRed(reg, io.after.value, s) && EscalatedSource(io.outcome.value, s))
      && (v.value.Escalated? ==>
            forall s :: s in v.value.unhealed <==> s in requested && IsRed(reg, io.after.value, s))
      && (v.value.Complete? ==>
            forall s :: s in v.value.healed <==> s in requested && !IsRed(reg, io.after.value, s))
  {
    var still := StillRed(reg, requested, io.after.value);
    var attributable := Filter(still, s => EscalatedSource(io.outcome.value, s));
    FilterMembers(requested, s => IsRed(reg, io.after.value, s));
    FilterMembers(still, s => EscalatedSource(io.outcome.value, s));
    FilterMembers(requested, s => s !in still);
    if s :| s in requested && IsRed(reg, io.after.value, s) && EscalatedSource(io.outcome.value, s) {
      assert s in attributable;
    }
    if attributable != [] {
      assert attributable[0] in still;
    }
  }

  // ── The exits of the try block ───────────────────────────────────────────

  /** Some check registered for the source is red. */
  predicate SourceRed(reg: Registry, red: set<string>, source: string) {
    exists key <- reg :: reg[key].source == source && reg[key].checkName in red
  }

  lemma IsRedIff(reg: Registry, red: set<string>, source: string)
    ensures IsRed(reg, red, source) <==> SourceRed(reg, red, source)
  {
    if SourceRed(reg, red, source) {
      var key :| key in reg && reg[key].source == source && reg[key].checkName in red;
      assert reg[key].checkName in ChecksFor(reg, source);
    }
  }

  predicate AllClean(reg: Registry, red: set<string>, requested: seq<string>) {
    forall s <- requested :: !SourceRed(reg, red, s)
  }

  /** Something raised before a reply could be formed. */
  predicate Unresolved(reg: Registry, requested: seq<string>, io: HealIo) {
    io.rc.Raised? || (io.rc.value == 0 &&
      (io.before.Raised? || (!AllClean(reg, io.before.value, requested) && (io.outcome.Raised? || io.after.Raised?))))
  }

  /** The healer gave up on the source, for the reason it recorded last. */
  ghost predicate GaveUp(outcome: HealOutcome, source: string, reason: string) {
    exists n :: 0 <= n < |outcome.escalated| && outcome.escalated[n] == (source, reason)
      && forall m :: n < m < |outcome.escalated| ==> outcome.escalated[m].0 != source
  }

  /** The source is red in the reading, and the healer ran and escalated it. */
  predicate Blamed(reg: Registry, red: set<string>, io: HealIo, source: string) {
    SourceRed(reg, red, source) && io.outcome.Got? && EscalatedSource(io.outcome.value, source)
  }

  /** Which reply the answers of the environment call for: nothing was assessed (`rc` is not zero), nothing
      was red to begin with, or the healer ran and `last` is the reading after it. */
  ghost predicate Owed(reg: Registry, id: string, requested: seq<string>, io: HealIo, reply: Reply)
    requires !Unresolved(reg, requested, io)
  {
    && reply.id == id
    && (io.rc.value != 0 ==> reply == Escalated(id, requested, ValidationExited(io.rc.value), 0))
    && (io.rc.value == 0 && AllClean(reg, io.before.value, requested) ==> reply == Complete(id, requested, [], true))
    && (io.rc.value == 0 && !AllClean(reg, io.before.value, requested) ==>
          OwedAfterHeal(reg, requested, io, io.after.value, reply))
  }

  ghost predicate OwedAfterHeal(reg: Registry, requested: seq<string>, io: HealIo, last: set<string>, reply: Reply)
    requires io.outcome.Got?
  {
    && (reply.Escalated? <==> exists s <- requested :: Blamed(reg, last, io, s))
    && (reply.Complete? ==>
          && reply.stillRed == Filter(requested, (s: string) => SourceRed(reg, last, s))
          && reply.healed == Filter(requested, (s: string) => !SourceRed(reg, last, s))
          && (reply.green <==> AllClean(reg, last, requested)))
    && (reply.Escalated? ==>
          && reply.unhealed == Filter(requested, (s: string) => SourceRed(reg, last, s))
          && reply.attempts == io.outcome.value.iterations
          && reply.reason.HealReasons?
          && var blamed := Filter(requested, (s: string) => Blamed(reg, last, io, s));
            && |reply.reason.reasons| == |blamed|
            && forall i :: 0 <= i < |blamed| ==> GaveUp(io.outcome.value, blamed[i], reply.reason.reasons[i]))
  }

  lemma {:induction false} LastReasonIs(escalated: seq<(string, string)>, s: string) returns (n: nat)
    requires exists i :: 0 <= i < |escalated| && escalated[i].0 == s
    ensures n < |escalated| && escalated[n] == (s, LastReason(escalated, s))
    ensures forall m :: n < m < |escalated| ==> escalated[m].0 != s
  {
    n := |escalated| - 1;
    if escalated[n].0 != s {
      n := LastReasonIs(escalated[..n], s);
    }
  }

  lemma CleanIff(reg: Registry, red: set<string>, requested: seq<string>)
    ensures StillRed(reg, requested, red) == [] <==> AllClean(reg, red, requested)
    ensures StillRed(reg, requested, red) == Filter(requested, (s: string) => SourceRed(reg, red, s))
    ensures forall s: string :: s in StillRed(reg, requested, red) <==> s in requested && SourceRed(reg, red, s)
  {
    StillRedIs(reg, requested, red);
    forall s: string ensures IsRed(reg, red, s) <==> SourceRed(reg, red, s) {
      IsRedIff(reg, red, s);
    }
    FilterSame(requested, (s: string) => IsRed(reg, red, s), (s: string) => SourceRed(reg, red, s));
    if StillRed(reg, requested, red) != [] {
      assert StillRed(reg, requested, red)[0] in StillRed(reg, requested, red);
    }
  }

  /** The still-red sources the healer escalated, in the order requested. */
  lemma BlamedInOrder(reg: Registry, requested: seq<string>, io: HealIo, last: set<string>)
    requires io.outcome.Got?
    ensures var blamed := Filter(StillRed(reg, requested, last), s => EscalatedSource(io.outcome.value, s));
      && blamed == Filter(requested, (s: string) => Blamed(reg, last, io, s))
      && (blamed != [] <==> exists s <- requested :: Blamed(reg, last, io, s))
      && (forall i :: 0 <= i < |blamed| ==>
            GaveUp(io.outcome.value, blamed[i], LastReason(io.outcome.value.escalated, blamed[i])))
  {
    var outcome := io.outcome.value;
    CleanIff(reg, last, requested);
    FilterTwice(requested, (s: string) => SourceRed(reg, last, s), s => EscalatedSource(outcome, s),
                (s: string) => Blamed(reg, last, io, s));
    var blamed := Filter(requested, (s: string) => Blamed(reg, last, io, s));
    FilterMembers(requested, (s: string) => Blamed(reg, last, io, s));
    forall i | 0 <= i < |blamed| ensures GaveUp(outcome, blamed[i], LastReason(outcome.escalated, blamed[i])) {
      assert blamed[i] in blamed;
      var n := LastReasonIs(outcome.escalated, blamed[i]);
    }
    if blamed != [] {
      assert blamed[0] in blamed;
    }
  }

  /** The three replies that can follow a heal. */
  lemma HealIsOwed(reg: Registry, id: string, requested: seq<string>, io: HealIo)
    requires io.rc == Got(0) && io.before.Got? && !AllClean(reg, io.before.value, requested)
    requires io.outcome.Got? && io.after.Got?
    ensures var v := Verdict(reg, id, requested, io);
      v.Some? && v.value.id == id && OwedAfterHeal(reg, requested, io, io.after.value, v.value)
  {
    var last := io.after.value;
    var still := StillRed(reg, requested, last);
    CleanIff(reg, io.before.value, requested);
    CleanIff(reg, last, requested);
    BlamedInOrder(reg, requested, io, last);
    FilterSame(requested, s => s !in still, (s: string) => !SourceRed(reg, last, s));
    if still == [] {
      FilterAll(requested, (s: string) => !SourceRed(reg, last, s));
    }
  }

  /** Every reply is the one owed, and none is made exactly when something raised before it. */
  lemma VerdictIsOwed(reg: Registry, id: string, requested: seq<string>, io: HealIo)
    ensures Verdict(reg, id, requested, io).None? <==> Unresolved(reg, requested, io)
    ensures !Unresolved(reg, requested, io) ==> Owed(reg, id, requested, io, Verdict(reg, id, requested, io).value)
  {
    if io.rc == Got(0) && io.before.Got? {
      CleanIff(reg, io.before.value, requested);
      if !Unresolved(reg, requested, io) && !AllClean(reg, io.before.value, requested) {
        HealIsOwed(reg, id, requested, io);
      }
    }
  }

  /** The engine is told that its data is good only when the validation stage ran to its end and the last
      reading taken shows none of the requested sources red. */
  lemma GreenIsEarned(reg: Registry, id: string, requested: seq<string>, io: HealIo)
    requires var v := Verdict(reg, id, requested, io); v.Some? && v.value.Complete? && v.value.green
    ensures io.rc == Got(0)
    ensures io.before.Got? && (AllClean(reg, io.before.value, requested)
                               || (io.after.Got? && AllClean(reg, io.after.value, requested)))
  {
    VerdictIsOwed(reg, id, requested, io);
  }
}
