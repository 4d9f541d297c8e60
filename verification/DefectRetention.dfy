/** The cap on review rows: what the log writer deletes, and what that does to the register. */
module DefectRetention {
  import opened Prelude
  import opened DefectRegister

  const MAX_ROWS: nat := 2000

  predicate ForRef(e: Event, ref: Ref) {
    e.Logged? && e.ref == ref
  }

  /** ROW_NUMBER() - 1: the rows that come before `e` when the newest comes first. */
  function Newer(log: seq<Event>, e: Event): nat {
    |Filter(log, (x: Event) => Outranks(x, e))|
  }

  predicate OpenLogged(log: seq<Event>, e: Event) {
    e.Logged? && !exists r <- log :: Resolves(r, e.ref, e.at)
  }

  /** What the cap leaves: young rows, the newest `MAX_ROWS`, and every LOGGED without a RESOLVED at or
      after it. */
  predicate Spared(log: seq<Event>, e: Event, cutoff: int) {
    e.at >= cutoff || Newer(log, e) < MAX_ROWS || OpenLogged(log, e)
  }

  function Pruned(log: seq<Event>, cutoff: int): seq<Event> {
    Filter(log, (e: Event) => Spared(log, e, cutoff))
  }

  lemma PrunedMembers(log: seq<Event>, cutoff: int)
    ensures forall e :: e in Pruned(log, cutoff) <==> e in log && Spared(log, e, cutoff)
  {
    FilterMembers(log, (e: Event) => Spared(log, e, cutoff));
  }

  /** A row goes exactly when it is older than the cutoff, two thousand rows come before it by time and id, and
      it is not a LOGGED without a RESOLVED of its reference at or after it. */
  lemma PrunedIff(log: seq<Event>, cutoff: int, e: Event)
    requires e in log
    ensures e !in Pruned(log, cutoff) <==>
      && e.at < cutoff
      && |Filter(log, (x: Event) => x.at > e.at || (x.at == e.at && x.id > e.id))| >= 2000
      && (e.Logged? ==> exists r <- log :: r.Resolved? && r.ref == e.ref && e.at <= r.at)
  {
    PrunedMembers(log, cutoff);
    FilterSame(log, (x: Event) => Outranks(x, e), (x: Event) => x.at > e.at || (x.at == e.at && x.id > e.id));
    if r :| r in log && r.Resolved? && r.ref == e.ref && e.at <= r.at {
      assert Resolves(r, e.ref, e.at);
    }
  }

  predicate ReadsOpen(log: seq<Event>, ref: Ref) {
    var row := ReviewRow(log, ref, 0);
    row.Some? && row.value.state == Open
  }

  lemma ReadsOpenIff(log: seq<Event>, ref: Ref)
    ensures ReadsOpen(log, ref) <==>
      && (exists l <- log :: ForRef(l, ref))
      && forall l, r :: l in log && r in log && ForRef(l, ref) ==> !Resolves(r, ref, l.at)
  {
    FixedIff(log, ref);
    if exists l <- log :: ForRef(l, ref) {
      assert exists e <- log :: e.Logged? && e.ref == ref;
    }
  }

  /** The cap never makes an open defect disappear or read as fixed. */
  lemma OpenIsNeverPruned(log: seq<Event>, cutoff: int, ref: Ref)
    requires ReadsOpen(log, ref)
    ensures ReadsOpen(Pruned(log, cutoff), ref)
  {
    ReadsOpenIff(log, ref);
    ReadsOpenIff(Pruned(log, cutoff), ref);
    PrunedMembers(log, cutoff);
    var l :| l in log && ForRef(l, ref);
    assert OpenLogged(log, l);
  }

  // ── Runs of the log ──────────────────────────────────────────────────────

  datatype Change = Insert(event: Event) | Prune(cutoff: int)

  function Changed(log: seq<Event>, c: Change): seq<Event> {
    match c
    case Insert(e) => log + [e]
    case Prune(cutoff) => Pruned(log, cutoff)
  }

  function After(log: seq<Event>, changes: seq<Change>): seq<Event> {
    if changes == [] then log else Changed(After(log, changes[..|changes| - 1]), changes[|changes| - 1])
  }

  predicate NewId(log: seq<Event>, id: nat) {
    forall e <- log :: e.id != id
  }

  /** Rows of other references arrive, each with a uuid of its own, and the cap runs. */
  predicate Untouched(log: seq<Event>, changes: seq<Change>, ref: Ref) {
    if changes == [] then true
    else
      var front, last := changes[..|changes| - 1], changes[|changes| - 1];
      && Untouched(log, front, ref)
      && (last.Insert? ==> last.event.ref != ref && NewId(After(log, front), last.event.id))
  }

  ghost predicate DistinctIds(log: seq<Event>) {
    forall a, b :: a in log && b in log && a.id == b.id ==> a == b
  }

  /** This LOGGED can outlive every RESOLVED of its reference: none is at or after it, or all those
      at its very time come behind it in the cap's order while it is among the newest. */
  predicate Exposed(log: seq<Event>, l: Event) {
    || OpenLogged(log, l)
    || (l.Logged? && Newer(log, l) < MAX_ROWS && !exists r <- log :: r.Resolved? && r.ref == l.ref && Outranks(r, l))
  }

  // ── What cannot reopen ───────────────────────────────────────────────────

  lemma {:induction false} FilterFewer<T>(s: seq<T>, p: T -> bool, q: T -> bool)
    requires forall x <- s :: p(x) ==> q(x)
    ensures |Filter(s, p)| <= |Filter(s, q)|
  {
    if s != [] {
      FilterFewer(s[1..], p, q);
    }
  }

  lemma {:induction false} FilterStrictly<T>(s: seq<T>, p: T -> bool, q: T -> bool, y: T)
    requires forall x <- s :: p(x) ==> q(x)
    requires y in s && q(y) && !p(y)
    ensures |Filter(s, p)| < |Filter(s, q)|
  {
    if s[0] == y {
      FilterFewer(s[1..], p, q);
    } else {
      FilterStrictly(s[1..], p, q, y);
    }
  }

  lemma HigherHasFewer(log: seq<Event>, a: Event, b: Event)
    requires a in log && Outranks(a, b)
    ensures Newer(log, a) < Newer(log, b)
  {
    FilterStrictly(log, (x: Event) => Outranks(x, a), (x: Event) => Outranks(x, b), a);
  }

  lemma {:induction false} Highest(log: seq<Event>, p: Event -> bool) returns (y: Event)
    requires exists x <- log :: p(x)
    ensures y in log && p(y)
    ensures forall x <- log :: p(x) ==> !Outranks(x, y)
  {
    var front, last := log[..|log| - 1], log[|log| - 1];
    assert log == front + [last];
    if exists x <- front :: p(x) {
      y := Highest(front, p);
      if p(last) && Outranks(last, y) {
        y := last;
      }
    } else {
      y := last;
    }
  }

  /** The cap leaves its newest rows alone, so a row beyond it stays beyond it. */
  lemma StillBeyond(log: seq<Event>, cutoff: int, l: Event)
    requires Newer(log, l) >= MAX_ROWS
    ensures Newer(Pruned(log, cutoff), l) >= MAX_ROWS
  {
    var above, spared := (x: Event) => Outranks(x, l), (x: Event) => Spared(log, x, cutoff);
    var kept := (x: Event) => spared(x) && above(x);
    FilterTwice(log, spared, above, kept);
    if exists x <- log :: above(x) && !spared(x) {
      var y := Highest(log, x => above(x) && !spared(x));
      FilterFewer(log, (x: Event) => Outranks(x, y), kept);
    } else {
      FilterFewer(log, above, kept);
    }
  }

  /** No LOGGED of the reference is exposed. */
  predicate Sheltered(log: seq<Event>, ref: Ref) {
    forall l <- log :: ForRef(l, ref) ==> !Exposed(log, l)
  }

  lemma InsertShelters(log: seq<Event>, e: Event, ref: Ref)
    requires Sheltered(log, ref) && e.ref != ref
    ensures Sheltered(log + [e], ref)
  {
    forall l <- log + [e] | ForRef(l, ref) ensures !Exposed(log + [e], l) {
      assert l in log;
      FilterSnoc(log, e, (x: Event) => Outranks(x, l));
      forall r | r in log ensures r in log + [e] {
      }
    }
  }

  lemma PruneShelters(log: seq<Event>, cutoff: int, ref: Ref)
    requires Sheltered(log, ref)
    ensures Sheltered(Pruned(log, cutoff), ref)
  {
    PrunedMembers(log, cutoff);
    forall l <- Pruned(log, cutoff) | ForRef(l, ref) ensures !Exposed(Pruned(log, cutoff), l) {
      var r :| r in log && Resolves(r, ref, l.at);
      if above :| above in log && above.Resolved? && above.ref == ref && Outranks(above, l) {
        HigherHasFewer(log, above, l);
        assert above in Pruned(log, cutoff) && Resolves(above, ref, l.at);
      } else {
        StillBeyond(log, cutoff, l);
        assert r in Pruned(log, cutoff);
      }
    }
  }

  lemma {:induction false} ShelteredRun(log: seq<Event>, changes: seq<Change>, ref: Ref)
    requires Sheltered(log, ref) && Untouched(log, changes, ref)
    ensures Sheltered(After(log, changes), ref)
  {
    if changes != [] {
      var front, last := changes[..|changes| - 1], changes[|changes| - 1];
      ShelteredRun(log, front, ref);
      match last
      case Insert(e) => InsertShelters(After(log, front), e, ref);
      case Prune(cutoff) => PruneShelters(After(log, front), cutoff, ref);
    }
  }

  // ── What can reopen ──────────────────────────────────────────────────────

  lemma {:induction false} FreshId(log: seq<Event>) returns (id: nat)
    ensures forall e <- log :: e.id < id
  {
    if log == [] {
      id := 0;
    } else {
      var front, last := log[..|log| - 1], log[|log| - 1];
      assert log == front + [last];
      id := FreshId(front);
      id := if last.id < id then id else last.id + 1;
    }
  }

  /** `n` later rows of another reference push every row before `at` down by `n`. */
  lemma {:induction false} PushDown(log: seq<Event>, ref: Ref, at: int, n: nat) returns (changes: seq<Change>)
    ensures Untouched(log, changes, ref)
    ensures forall e :: e in log ==> e in After(log, changes)
    ensures forall e :: e in After(log, changes) ==> e in log || (e.Logged? && e.ref != ref)
    ensures forall e: Event :: e.at < at ==> Newer(After(log, changes), e) == Newer(log, e) + n
  {
    if n == 0 {
      changes := [];
    } else {
      var front := PushDown(log, ref, at, n - 1);
      var mid := After(log, front);
      var id := FreshId(mid);
      var row := Logged(id, ref + 1, at, None, None, None);
      changes := front + [Insert(row)];
      assert changes[..|changes| - 1] == front;
      assert After(log, changes) == mid + [row];
      forall e: Event | e.at < at ensures Newer(mid + [row], e) == Newer(log, e) + n {
        FilterSnoc(mid, row, (x: Event) => Outranks(x, e));
      }
    }
  }

  lemma Reopening(log: seq<Event>, ref: Ref, l: Event) returns (changes: seq<Change>)
    requires DistinctIds(log) && l in log && ForRef(l, ref) && Exposed(log, l)
    ensures Untouched(log, changes, ref) && ReadsOpen(After(log, changes), ref)
  {
    var n := if OpenLogged(log, l) then MAX_ROWS else MAX_ROWS - 1 - Newer(log, l);
    var more := PushDown(log, ref, l.at + 1, n);
    var mid := After(log, more);
    changes := more + [Prune(l.at + 1)];
    assert changes[..|changes| - 1] == more;
    PrunedMembers(mid, l.at + 1);
    assert l in Pruned(mid, l.at + 1) by {
      if OpenLogged(log, l) {
        assert OpenLogged(mid, l);
      }
    }
    forall r <- mid | r.Resolved? && r.ref == ref ensures !Spared(mid, r, l.at + 1) {
      assert r in log;
      if !OpenLogged(log, l) {
        assert Outranks(l, r);
        HigherHasFewer(mid, l, r);
      }
    }
    ReadsOpenIff(Pruned(mid, l.at + 1), ref);
  }

  /** Some run of the cap, with rows of other defects arriving, shows the defect open. */
  ghost predicate CanReadOpen(log: seq<Event>, ref: Ref) {
    exists changes :: Untouched(log, changes, ref) && ReadsOpen(After(log, changes), ref)
  }

  /** Exactly when a defect can read open again with no row of its own added: if and only if some LOGGED of it is
      exposed. Logging a fixed defect again exposes it. */
  lemma ReopensIff(log: seq<Event>, ref: Ref)
    requires DistinctIds(log)
    ensures CanReadOpen(log, ref) <==> !Sheltered(log, ref)
  {
    if !Sheltered(log, ref) {
      var l :| l in log && ForRef(l, ref) && Exposed(log, l);
      var changes := Reopening(log, ref, l);
    } else {
      forall changes | Untouched(log, changes, ref) ensures !ReadsOpen(After(log, changes), ref) {
        ShelteredRun(log, changes, ref);
        ReadsOpenIff(After(log, changes), ref);
      }
    }
  }

  /** Logging a fixed defect again, later than every RESOLVED of it, leaves it reading as fixed and bound
      to be shown open once the older rows are deleted. */
  lemma RelogReopens(log: seq<Event>, e: Event, ref: Ref)
    requires DistinctIds(log) && NewId(log, e.id) && IsFixed(log, ref)
    requires ForRef(e, ref) && forall r <- log :: !Resolves(r, ref, e.at)
    ensures IsFixed(log + [e], ref) && CanReadOpen(log + [e], ref)
  {
    FixedIsForever(log, [e], ref);
    assert OpenLogged(log + [e], e) && e in log + [e];
    ReopensIff(log + [e], ref);
  }

  /** A review row shown as fixed, with no LOGGED of its reference exposed, is not shown as open by any
      later listing, whatever rows of other references arrive and whenever the cap runs. */
  lemma ShelteredRowsStayFixed(
      engines: seq<Entry>, datas: seq<Entry>, log: seq<Event>, changes: seq<Change>, now: int, rows: seq<DefectRow>,
      row: DefectRow)
    requires Sheltered(log, row.ref) && Untouched(log, changes, row.ref)
    requires Consolidates(engines, datas, After(log, changes), now, rows) && row in rows
    ensures row.origin == Escalation || row.state == Fixed
  {
    ShelteredRun(log, changes, row.ref);
    var later := After(log, changes);
    ReadsOpenIff(later, row.ref);
    EscalationsAreOpen(engines, datas, row.ref);
    assert Chosen(engines, datas, later, now, row.ref) == Some(row);
    assert row.origin == Review ==> ReviewRow(later, row.ref, now) == Some(row);
  }
}
