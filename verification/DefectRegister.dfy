/** The consolidated defect register: engine, data and review defects joined by their reference. */
module DefectRegister {
  import opened Prelude

  /** A defect reference, by its rank in string order. */
  type Ref = nat

  datatype Origin = Escalation | Review

  datatype State = Open | Fixed

  datatype DefectRow = DefectRow(
    ref: Ref, origin: Origin, lane: string, summary: string, state: State, openedAt: int,
    policy: Option<string>, fixRef: Option<string>)

  /** An entry of either escalation ladder; entries with no reference are dropped. */
  datatype Entry = Entry(ref: Option<Ref>, recordedAt: int, summary: string, policy: Option<string>)

  /** The two review events, in insertion order. Their `recorded_at` need not be ordered, and `id` is a
      row's uuid, by its rank. */
  datatype Event =
    | Logged(id: nat, ref: Ref, at: int, loggedAt: Option<int>, summary: Option<string>, lane: Option<string>)
    | Resolved(id: nat, ref: Ref, at: int, pr: Option<string>)

  /** The order of rows by (recorded_at, id). */
  predicate Outranks(a: Event, b: Event) {
    a.at > b.at || (a.at == b.at && a.id > b.id)
  }

  // ── The review query ─────────────────────────────────────────────────────

  /** DISTINCT ON: the LOGGED of a reference that comes first by (recorded_at, id). */
  function Earliest(log: seq<Event>, ref: Ref): (k: Option<nat>)
    ensures k.Some? ==> k.value < |log| && log[k.value].Logged? && log[k.value].ref == ref
    ensures k.Some? ==>
      forall i :: 0 <= i < |log| && log[i].Logged? && log[i].ref == ref ==> log[k.value].at <= log[i].at
    ensures k.None? ==> forall i :: 0 <= i < |log| && log[i].ref == ref ==> !log[i].Logged?
  {
    if log == [] then None
    else
      var init, last := log[..|log| - 1], log[|log| - 1];
      var k := Earliest(init, ref);
      if last.Logged? && last.ref == ref && (k.None? || Outranks(init[k.value], last)) then Some(|log| - 1) else k
  }

  predicate Resolves(e: Event, ref: Ref, since: int) {
    e.Resolved? && e.ref == ref && e.at >= since
  }

  /** `is_resolved`, read off the earliest LOGGED only. */
  predicate IsFixed(log: seq<Event>, ref: Ref) {
    var k := Earliest(log, ref);
    k.Some? && exists r <- log :: Resolves(r, ref, log[k.value].at)
  }

  /** The latest RESOLVED at or after a time. */
  function LatestFix(log: seq<Event>, ref: Ref, since: int): (fix: Option<Event>)
    ensures fix.Some? <==> exists r <- log :: Resolves(r, ref, since)
    ensures fix.Some? ==> fix.value in log && Resolves(fix.value, ref, since)
    ensures fix.Some? ==> forall r <- log :: Resolves(r, ref, since) ==> r.at <= fix.value.at
  {
    if log == [] then None
    else
      var init, last := log[..|log| - 1], log[|log| - 1];
      assert log == init + [last];
      var fix := LatestFix(init, ref, since);
      if Resolves(last, ref, since) && (fix.None? || last.at >= fix.value.at) then Some(last) else fix
  }

  function ReviewRow(log: seq<Event>, ref: Ref, now: int): (row: Option<DefectRow>)
    ensures row.Some? <==> exists e <- log :: e.Logged? && e.ref == ref
    ensures row.Some? ==> row.value.ref == ref && (row.value.state == Fixed <==> IsFixed(log, ref))
  {
    var k := Earliest(log, ref);
    if k.None? then None
    else
      var e := log[k.value];
      assert e in log;
      var fix := LatestFix(log, ref, e.at);
      Some(DefectRow(ref, Review, if e.lane.UnwrapOr("") == "" then "review" else e.lane.value, e.summary.UnwrapOr(""),
        if fix.Some? then Fixed else Open, e.loggedAt.UnwrapOr(now), None, if fix.Some? then fix.value.pr else None))
  }

  /** Although the query looks at the earliest LOGGED alone, a reference reads as fixed exactly when
      any LOGGED of it is followed, in time, by any RESOLVED of it. */
  lemma FixedIff(log: seq<Event>, ref: Ref)
    ensures IsFixed(log, ref) <==>
      exists l, r :: l in log && r in log && l.Logged? && l.ref == ref && Resolves(r, ref, l.at)
  {
    var k := Earliest(log, ref);
    if l, r :| l in log && r in log && l.Logged? && l.ref == ref && Resolves(r, ref, l.at) {
      var i :| 0 <= i < |log| && log[i] == l;
      assert Resolves(r, ref, log[k.value].at);
    }
    if IsFixed(log, ref) {
      assert log[k.value] in log;
    }
  }

  /** Fixed stays fixed as long as rows are only added: logging the defect again, at whatever time,
      does not by itself reopen it. DefectRetention.dfy has what deletions do. */
  lemma FixedIsForever(log: seq<Event>, more: seq<Event>, ref: Ref)
    requires IsFixed(log, ref)
    ensures IsFixed(log + more, ref)
  {
    FixedIff(log, ref);
    var l, r :| l in log && r in log && l.Logged? && l.ref == ref && Resolves(r, ref, l.at);
    assert l in log + more && r in log + more;
    FixedIff(log + more, ref);
  }

  /** What closes an open defect: a RESOLVED no older than some LOGGED of it, or a LOGGED no younger
      than some RESOLVED of it. */
  lemma ClosedBy(log: seq<Event>, e: Event, ref: Ref)
    requires !IsFixed(log, ref)
    ensures IsFixed(log + [e], ref) <==>
      || (exists l <- log :: l.Logged? && l.ref == ref && Resolves(e, ref, l.at))
      || (e.Logged? && e.ref == ref && exists r <- log :: Resolves(r, ref, e.at))
  {
    FixedIff(log, ref);
    FixedIff(log + [e], ref);
    assert e in log + [e];
    forall x | x in log ensures x in log + [e] {
    }
  }

  // ── The join ─────────────────────────────────────────────────────────────

  function EngineRow(e: Entry): Option<DefectRow> {
    if e.ref.None? then None
    else Some(DefectRow(e.ref.value, Escalation, "engine", e.summary, Open, e.recordedAt, e.policy, None))
  }

  function DataRow(e: Entry): Option<DefectRow> {
    if e.ref.None? then None
    else Some(DefectRow(e.ref.value, Escalation, "data", e.summary, Open, e.recordedAt, e.policy, None))
  }

  function EngineRows(es: seq<Entry>): seq<Option<DefectRow>> {
    seq(|es|, i requires 0 <= i < |es| => EngineRow(es[i]))
  }

  function DataRows(es: seq<Entry>): seq<Option<DefectRow>> {
    seq(|es|, i requires 0 <= i < |es| => DataRow(es[i]))
  }

  predicate HasRef(row: Option<DefectRow>, ref: Ref) {
    row.Some? && row.value.ref == ref
  }

  /** The first row of a reference in a source. */
  function First(rows: seq<Option<DefectRow>>, ref: Ref): (first: Option<DefectRow>)
    ensures first.Some? ==> first in rows && first.value.ref == ref
    ensures first.None? ==> forall row <- rows :: !HasRef(row, ref)
  {
    if rows == [] then None
    else
      assert rows == rows[..|rows| - 1] + [rows[|rows| - 1]];
      var first := First(rows[..|rows| - 1], ref);
      if first.Some? then first
      else if HasRef(rows[|rows| - 1], ref) then rows[|rows| - 1]
      else None
  }

  lemma FirstSnoc(rows: seq<Option<DefectRow>>, row: Option<DefectRow>, ref: Ref)
    ensures First(rows + [row], ref) ==
      if First(rows, ref).Some? then First(rows, ref) else if HasRef(row, ref) then row else None
  {
    assert (rows + [row])[..|rows|] == rows;
  }

  lemma {:induction false} FirstConcat(a: seq<Option<DefectRow>>, b: seq<Option<DefectRow>>, ref: Ref)
    ensures First(a + b, ref) == if First(a, ref).Some? then First(a, ref) else First(b, ref)
  {
    if b == [] {
      assert a + b == a;
    } else {
      var init, last := b[..|b| - 1], b[|b| - 1];
      assert a + b == (a + init) + [last] && b == init + [last];
      FirstConcat(a, init, ref);
      FirstSnoc(a + init, last, ref);
    }
  }

  /** What the register shows for a reference: the engine's row, else the data lane's, else the
      review's. */
  function Chosen(engines: seq<Entry>, datas: seq<Entry>, log: seq<Event>, now: int, ref: Ref): Option<DefectRow> {
    var engine, data := First(EngineRows(engines), ref), First(DataRows(datas), ref);
    if engine.Some? then engine else if data.Some? then data else ReviewRow(log, ref, now)
  }

  function Lookup(byRef: map<Ref, DefectRow>, ref: Ref): Option<DefectRow> {
    if ref in byRef then Some(byRef[ref]) else None
  }

  ghost predicate Joined(byRef: map<Ref, DefectRow>, rows: seq<Option<DefectRow>>) {
    forall ref: Ref :: Lookup(byRef, ref) == First(rows, ref)
  }

  function AddFirst(byRef: map<Ref, DefectRow>, row: Option<DefectRow>): map<Ref, DefectRow> {
    if row.None? || row.value.ref in byRef then byRef else byRef[row.value.ref := row.value]
  }

  lemma JoinedSnoc(byRef: map<Ref, DefectRow>, rows: seq<Option<DefectRow>>, row: Option<DefectRow>)
    requires Joined(byRef, rows)
    ensures Joined(AddFirst(byRef, row), rows + [row])
  {
    forall ref: Ref ensures Lookup(AddFirst(byRef, row), ref) == First(rows + [row], ref) {
      FirstSnoc(rows, row, ref);
      assert Lookup(byRef, ref) == First(rows, ref);
    }
  }

  // ── Sorting ──────────────────────────────────────────────────────────────

  predicate Before(a: DefectRow, b: DefectRow) {
    a.openedAt < b.openedAt || (a.openedAt == b.openedAt && a.ref < b.ref)
  }

  predicate StrictlySorted(rows: seq<DefectRow>) {
    forall i, j :: 0 <= i < j < |rows| ==> Before(rows[i], rows[j])
  }

  predicate Keyed(byRef: map<Ref, DefectRow>) {
    forall ref <- byRef :: byRef[ref].ref == ref
  }

  predicate IsFirst(byRef: map<Ref, DefectRow>, ref: Ref) {
    ref in byRef && forall other <- byRef :: other == ref || Before(byRef[ref], byRef[other])
  }

  lemma {:induction false} SomeFirst(byRef: map<Ref, DefectRow>)
    requires Keyed(byRef) && byRef != map[]
    ensures exists ref :: IsFirst(byRef, ref)
    decreases |byRef|
  {
    var any :| any in byRef;
    var rest := byRef - {any};
    assert forall other <- byRef :: other == any || other in rest;
    if rest == map[] {
      assert IsFirst(byRef, any);
    } else {
      SomeFirst(rest);
      var least :| IsFirst(rest, least);
      assert IsFirst(byRef, if Before(byRef[any], byRef[least]) then any else least);
    }
  }

  function FirstRef(byRef: map<Ref, DefectRow>): (ref: Ref)
    requires Keyed(byRef) && byRef != map[]
    ensures IsFirst(byRef, ref)
  {
    SomeFirst(byRef);
    var ref :| IsFirst(byRef, ref);
    ref
  }

  /** `sorted(by_ref.values(), key=(opened_at, defect_ref))`. */
  function Listing(byRef: map<Ref, DefectRow>): seq<DefectRow>
    requires Keyed(byRef)
    decreases |byRef|
  {
    if byRef == map[] then [] else [byRef[FirstRef(byRef)]] + Listing(byRef - {FirstRef(byRef)})
  }

  lemma {:induction false} ListingMembers(byRef: map<Ref, DefectRow>, row: DefectRow)
    requires Keyed(byRef)
    ensures row in Listing(byRef) <==> row.ref in byRef && byRef[row.ref] == row
    decreases |byRef|
  {
    if byRef != map[] {
      ListingMembers(byRef - {FirstRef(byRef)}, row);
    }
  }

  lemma SortedCons(row: DefectRow, rows: seq<DefectRow>)
    requires StrictlySorted(rows) && forall later <- rows :: Before(row, later)
    ensures StrictlySorted([row] + rows)
  {
    assert forall i :: 0 < i < |[row] + rows| ==> ([row] + rows)[i] == rows[i - 1];
  }

  lemma {:induction false} ListingIsSorted(byRef: map<Ref, DefectRow>)
    requires Keyed(byRef)
    ensures StrictlySorted(Listing(byRef))
    decreases |byRef|
  {
    if byRef != map[] {
      var ref := FirstRef(byRef);
      var rest := byRef - {ref};
      ListingIsSorted(rest);
      forall row <- Listing(rest) ensures Before(byRef[ref], row) {
        ListingMembers(rest, row);
      }
      SortedCons(byRef[ref], Listing(rest));
    }
  }

  /** The references of the review events, in string order, as the query returns them. */
  function SortedRefs(refs: set<Ref>): (sorted: seq<Ref>)
    ensures forall ref :: ref in sorted <==> ref in refs
  {
    if refs == {} then []
    else
      SomeLeast(refs);
      var least :| IsLeast(refs, least);
      [least] + SortedRefs(refs - {least})
  }

  predicate IsLeast(refs: set<Ref>, least: Ref) {
    least in refs && forall other <- refs :: least <= other
  }

  lemma {:induction false} SomeLeast(refs: set<Ref>)
    requires refs != {}
    ensures exists least :: IsLeast(refs, least)
  {
    var any :| any in refs;
    var others := refs - {any};
    assert refs == others + {any};
    if others == {} {
      assert IsLeast(refs, any);
    } else {
      SomeLeast(others);
      var rest :| IsLeast(others, rest);
      assert IsLeast(refs, if any <= rest then any else rest);
    }
  }

  function ReviewRefs(log: seq<Event>): seq<Ref> {
    SortedRefs(set e <- log | e.Logged? :: e.ref)
  }

  function ReviewRows(log: seq<Event>, now: int): seq<Option<DefectRow>> {
    var refs := ReviewRefs(log);
    seq(|refs|, i requires 0 <= i < |refs| => ReviewRow(log, refs[i], now))
  }

  lemma FirstReview(log: seq<Event>, now: int, ref: Ref)
    ensures First(ReviewRows(log, now), ref) == ReviewRow(log, ref, now)
  {
    var refs, rows := ReviewRefs(log), ReviewRows(log, now);
    if ReviewRow(log, ref, now).Some? {
      var e :| e in log && e.Logged? && e.ref == ref;
      assert ref in refs;
      var i :| 0 <= i < |refs| && refs[i] == ref;
      assert rows[i] == ReviewRow(log, ref, now) && HasRef(rows[i], ref);
    }
    var first := First(rows, ref);
    if first.Some? {
      var i :| 0 <= i < |rows| && rows[i] == first;
      assert refs[i] == ref;
    }
  }

  lemma JoinedChoice(byRef: map<Ref, DefectRow>, engines: seq<Entry>, datas: seq<Entry>, log: seq<Event>, now: int,
      ref: Ref)
    requires Joined(byRef, EngineRows(engines) + DataRows(datas) + ReviewRows(log, now))
    ensures Lookup(byRef, ref) == Chosen(engines, datas, log, now, ref)
  {
    var e, d, r := EngineRows(engines), DataRows(datas), ReviewRows(log, now);
    assert Lookup(byRef, ref) == First(e + d + r, ref);
    FirstConcat(e + d, r, ref);
    FirstConcat(e, d, ref);
    FirstReview(log, now, ref);
  }

  /** One row for every reference that any source knows, the chosen one, in strict order. */
  ghost predicate Consolidates(engines: seq<Entry>, datas: seq<Entry>, log: seq<Event>, now: int,
      rows: seq<DefectRow>) {
    && StrictlySorted(rows)
    && forall row: DefectRow :: row in rows <==> Chosen(engines, datas, log, now, row.ref) == Some(row)
  }

  /** The sorted listing of the three sources' join. */
  lemma JoinConsolidates(byRef: map<Ref, DefectRow>, engines: seq<Entry>, datas: seq<Entry>, log: seq<Event>, now: int)
    requires Joined(byRef, EngineRows(engines) + DataRows(datas) + ReviewRows(log, now))
    ensures Keyed(byRef) && Consolidates(engines, datas, log, now, Listing(byRef))
  {
    forall ref | ref in byRef ensures byRef[ref].ref == ref {
      assert Lookup(byRef, ref) == First(EngineRows(engines) + DataRows(datas) + ReviewRows(log, now), ref);
    }
    ListingIsSorted(byRef);
    forall row: DefectRow
      ensures row in Listing(byRef) <==> Chosen(engines, datas, log, now, row.ref) == Some(row)
    {
      ListingMembers(byRef, row);
      JoinedChoice(byRef, engines, datas, log, now, row.ref);
    }
  }

  lemma OneMore<T>(front: seq<T>, rows: seq<T>, i: nat)
    requires i < |rows|
    ensures front + rows[..i] + [rows[i]] == front + rows[..i + 1]
  {
  }

  method ConsolidatedDefects(engines: seq<Entry>, datas: seq<Entry>, log: seq<Event>, now: int)
    returns (rows: seq<DefectRow>)
    ensures Consolidates(engines, datas, log, now, rows)
    ensures forall i, j :: 0 <= i < j < |rows| ==>
      rows[i].openedAt < rows[j].openedAt || (rows[i].openedAt == rows[j].openedAt && rows[i].ref < rows[j].ref)
  {
    var byRef: map<Ref, DefectRow> := map[];
    ghost var e, d, r := EngineRows(engines), DataRows(datas), ReviewRows(log, now);
    ghost var seen: seq<Option<DefectRow>> := [];
    for i := 0 to |engines|
      invariant seen == [] + e[..i] && Joined(byRef, seen)
    {
      var row := EngineRow(engines[i]);
      JoinedSnoc(byRef, seen, row);
      OneMore([], e, i);
      seen := seen + [row];
      if row.Some? && row.value.ref !in byRef {
        byRef := byRef[row.value.ref := row.value];
      }
    }
    assert seen == e;
    for i := 0 to |datas|
      invariant seen == e + d[..i] && Joined(byRef, seen)
    {
      var row := DataRow(datas[i]);
      JoinedSnoc(byRef, seen, row);
      OneMore(e, d, i);
      seen := seen + [row];
      if row.Some? && row.value.ref !in byRef {
        byRef := byRef[row.value.ref := row.value];
      }
    }
    assert seen == e + d;
    var refs := ReviewRefs(log);
    for i := 0 to |refs|
      invariant seen == e + d + r[..i] && Joined(byRef, seen)
    {
      var row := ReviewRow(log, refs[i], now);
      JoinedSnoc(byRef, seen, row);
      OneMore(e + d, r, i);
      seen := seen + [row];
      if row.Some? && row.value.ref !in byRef {
        byRef := byRef[row.value.ref := row.value];
      }
    }
    assert seen == e + d + r;
    JoinConsolidates(byRef, engines, datas, log, now);
    rows := Listing(byRef);
  }

  // ── What a listed row says ───────────────────────────────────────────────

  /** The first entry of a ladder that carries the reference. */
  predicate FirstEntry(es: seq<Entry>, ref: Ref, i: nat) {
    i < |es| && es[i].ref == Some(ref) && forall j :: 0 <= j < i ==> es[j].ref != Some(ref)
  }

  predicate Carries(es: seq<Entry>, ref: Ref) {
    exists e <- es :: e.ref == Some(ref)
  }

  /** The row says what the ladder's first entry for its reference says, and is open with no fix. */
  predicate FromLadder(es: seq<Entry>, lane: string, row: DefectRow) {
    && row.origin == Escalation && row.lane == lane && row.state == Open && row.fixRef == None
    && exists i: nat | i < |es| ::
         FirstEntry(es, row.ref, i) && row.openedAt == es[i].recordedAt && row.summary == es[i].summary
         && row.policy == es[i].policy
  }

  /** Row `k` is the earliest LOGGED of the reference by (recorded_at, id). */
  predicate EarliestLogged(log: seq<Event>, ref: Ref, k: nat) {
    && k < |log| && log[k].Logged? && log[k].ref == ref
    && forall e <- log :: e.Logged? && e.ref == ref ==> !Outranks(log[k], e)
  }

  /** The fix is the latest RESOLVED of the reference at or after a time. */
  predicate LatestResolved(log: seq<Event>, ref: Ref, since: int, fix: Event) {
    && fix in log && fix.Resolved? && fix.ref == ref && fix.at >= since
    && forall e <- log :: e.Resolved? && e.ref == ref && e.at >= since ==> e.at <= fix.at
  }

  /** The row says what the earliest LOGGED of its reference says, with the defaults for what that leaves out;
      it is fixed, with the latest fix, when some RESOLVED is at or after it, and else open with none. */
  predicate FromReview(log: seq<Event>, now: int, row: DefectRow) {
    && row.origin == Review && row.policy == None
    && exists k: nat | k < |log| :: EarliestLogged(log, row.ref, k)
         && row.openedAt == (if log[k].loggedAt.Some? then log[k].loggedAt.value else now)
         && row.summary == (if log[k].summary.Some? then log[k].summary.value else "")
         && row.lane == (if log[k].lane in {None, Some("")} then "review" else log[k].lane.value)
         && (row.state == Fixed ==>
               exists fix <- log :: LatestResolved(log, row.ref, log[k].at, fix) && row.fixRef == fix.pr)
         && (row.state == Open ==> row.fixRef == None && forall e <- log :: !Resolves(e, row.ref, log[k].at))
  }

  lemma {:induction false} FirstIsFirst(es: seq<Entry>, rows: seq<Option<DefectRow>>, ref: Ref) returns (i: nat)
    requires |rows| == |es| && forall j :: 0 <= j < |es| ==> (HasRef(rows[j], ref) <==> es[j].ref == Some(ref))
    ensures First(rows, ref).None? ==> !Carries(es, ref)
    ensures First(rows, ref).Some? ==> FirstEntry(es, ref, i) && First(rows, ref) == rows[i]
  {
    i := 0;
    if es != [] {
      var k := |es| - 1;
      assert es == es[..k] + [es[k]];
      i := FirstIsFirst(es[..k], rows[..k], ref);
      if First(rows[..k], ref).None? {
        assert forall j :: 0 <= j < k ==> es[j] == es[..k][j] && es[j] in es[..k];
        i := k;
      }
    }
  }

  lemma {:induction false} EarliestIs(log: seq<Event>, ref: Ref)
    ensures var k := Earliest(log, ref); k.Some? ==> EarliestLogged(log, ref, k.value)
  {
    if log != [] {
      assert log == log[..|log| - 1] + [log[|log| - 1]];
      EarliestIs(log[..|log| - 1], ref);
    }
  }

  lemma ReviewSays(log: seq<Event>, ref: Ref, now: int)
    ensures var row := ReviewRow(log, ref, now); row.Some? ==> FromReview(log, now, row.value)
  {
    EarliestIs(log, ref);
  }

  /** What each row of the listing says, by where it comes from: the engine ladder first, then the data
      ladder, then the review log; and every reference that any of them knows has a row. */
  lemma RowSays(engines: seq<Entry>, datas: seq<Entry>, log: seq<Event>, now: int, rows: seq<DefectRow>, ref: Ref)
    requires Consolidates(engines, datas, log, now, rows)
    ensures (exists row <- rows :: row.ref == ref) <==>
      Carries(engines, ref) || Carries(datas, ref) || exists e <- log :: e.Logged? && e.ref == ref
    ensures forall row <- rows :: row.ref == ref ==>
      if Carries(engines, ref) then FromLadder(engines, "engine", row)
      else if Carries(datas, ref) then FromLadder(datas, "data", row)
      else FromReview(log, now, row)
  {
    var i := FirstIsFirst(engines, EngineRows(engines), ref);
    var j := FirstIsFirst(datas, DataRows(datas), ref);
    ReviewSays(log, ref, now);
    var chosen := Chosen(engines, datas, log, now, ref);
    if chosen.Some? {
      assert chosen.value.ref == ref;
      assert chosen.value in rows;
    }
  }

  // ── What the listing depends on ──────────────────────────────────────────

  lemma Inhabited(rows: seq<DefectRow>)
    ensures rows == [] || exists row :: row in rows
  {
    if rows != [] {
      assert rows[0] in rows;
    }
  }

  lemma {:induction false} SortedUnique(a: seq<DefectRow>, b: seq<DefectRow>)
    requires StrictlySorted(a) && StrictlySorted(b)
    requires forall row: DefectRow :: row in a <==> row in b
    ensures a == b
  {
    if a == [] {
      Inhabited(b);
    } else {
      assert a[0] in b && b != [];
      assert b[0] in a;
      assert a[0] == b[0];
      forall row: DefectRow ensures row in a[1..] <==> row in b[1..] {
        if row in a[1..] {
          assert Before(a[0], row) && row in a;
        }
        if row in b[1..] {
          assert Before(b[0], row) && row in b;
        }
      }
      SortedUnique(a[1..], b[1..]);
    }
  }

  /** The rows of one reference within one source say the same. */
  predicate Coherent(rows: seq<Option<DefectRow>>) {
    forall a, b :: a in rows && b in rows && a.Some? && b.Some? && a.value.ref == b.value.ref ==> a == b
  }

  lemma ToFront<T>(rows: seq<T>, i: nat)
    requires i < |rows|
    ensures multiset([rows[i]] + rows[..i] + rows[i + 1..]) == multiset(rows)
  {
    assert rows == rows[..i] + [rows[i]] + rows[i + 1..];
  }

  lemma FirstOfFront(row: Option<DefectRow>, rows: seq<Option<DefectRow>>)
    requires row.Some?
    ensures First([row] + rows, row.value.ref) == row
  {
    FirstConcat([row], rows, row.value.ref);
    assert First([row], row.value.ref) == row;
  }

  /** The rows join the same way in whatever order they arrive. */
  ghost predicate AnyOrder(rows: seq<Option<DefectRow>>) {
    forall other: seq<Option<DefectRow>>, ref: Ref ::
      multiset(other) == multiset(rows) ==> First(other, ref) == First(rows, ref)
  }

  /** A source's rows join the same way in every arrival order exactly when the rows it gives for one
      reference are equal; distinct references are the special case. */
  lemma ArrivalOrderIff(rows: seq<Option<DefectRow>>)
    ensures Coherent(rows) <==> AnyOrder(rows)
  {
    if Coherent(rows) {
      forall other: seq<Option<DefectRow>>, ref: Ref | multiset(other) == multiset(rows)
        ensures First(other, ref) == First(rows, ref)
      {
        SameMembers(rows, other);
        var a, b := First(rows, ref), First(other, ref);
        if a.Some? {
          assert a in other && HasRef(a, ref);
        }
      }
    }
    if AnyOrder(rows) {
      forall a, b | a in rows && b in rows && a.Some? && b.Some? && a.value.ref == b.value.ref ensures a == b {
        FrontWins(rows, a);
        FrontWins(rows, b);
      }
    }
  }

  lemma SameMembers<T>(a: seq<T>, b: seq<T>)
    requires multiset(a) == multiset(b)
    ensures forall x :: x in a <==> x in b
  {
    forall x ensures x in a <==> x in b {
      assert x in a <==> x in multiset(a);
      assert x in b <==> x in multiset(b);
    }
  }

  lemma FrontWins(rows: seq<Option<DefectRow>>, a: Option<DefectRow>)
    requires a in rows && a.Some?
    requires AnyOrder(rows)
    ensures First(rows, a.value.ref) == a
  {
    var i :| 0 <= i < |rows| && rows[i] == a;
    ToFront(rows, i);
    var other := [a] + (rows[..i] + rows[i + 1..]);
    assert other == [a] + rows[..i] + rows[i + 1..];
    FirstOfFront(a, rows[..i] + rows[i + 1..]);
    assert multiset(other) == multiset(rows);
  }

  /** The register is a function of its sources: whatever order the two ladders return their entries
      in, coherent sources list identically. */
  lemma ArrivalOrderIsIrrelevant(
      engines: seq<Entry>, engines': seq<Entry>, datas: seq<Entry>, datas': seq<Entry>, log: seq<Event>, now: int,
      rows: seq<DefectRow>, rows': seq<DefectRow>)
    requires Coherent(EngineRows(engines)) && multiset(EngineRows(engines')) == multiset(EngineRows(engines))
    requires Coherent(DataRows(datas)) && multiset(DataRows(datas')) == multiset(DataRows(datas))
    requires Consolidates(engines, datas, log, now, rows) && Consolidates(engines', datas', log, now, rows')
    ensures rows == rows'
  {
    ArrivalOrderIff(EngineRows(engines));
    ArrivalOrderIff(DataRows(datas));
    forall row: DefectRow ensures row in rows <==> row in rows' {
      assert First(EngineRows(engines'), row.ref) == First(EngineRows(engines), row.ref);
      assert First(DataRows(datas'), row.ref) == First(DataRows(datas), row.ref);
    }
    SortedUnique(rows, rows');
  }

  /** No reference is listed twice. */
  lemma OneRowPerRef(engines: seq<Entry>, datas: seq<Entry>, log: seq<Event>, now: int, rows: seq<DefectRow>,
      i: nat, j: nat)
    requires Consolidates(engines, datas, log, now, rows) && i < j < |rows|
    ensures rows[i].ref != rows[j].ref
  {
    assert rows[i] in rows && rows[j] in rows && Before(rows[i], rows[j]);
  }

  /** A review defect once shown as fixed is not shown as open again by rows added to the log; at most an
      escalation with the same reference takes its place. */
  lemma FixedRowsStayFixed(
      engines: seq<Entry>, datas: seq<Entry>, log: seq<Event>, now: int, rows: seq<DefectRow>,
      engines': seq<Entry>, datas': seq<Entry>, more: seq<Event>, now': int, rows': seq<DefectRow>, row: DefectRow)
    requires Consolidates(engines, datas, log, now, rows) && Consolidates(engines', datas', log + more, now', rows')
    requires row in rows && row.state == Fixed
    ensures exists row' <- rows' :: row'.ref == row.ref && (row'.origin == Escalation || row'.state == Fixed)
  {
    assert Chosen(engines, datas, log, now, row.ref) == Some(row);
    EscalationsAreOpen(engines, datas, row.ref);
    FixedIsForever(log, more, row.ref);
    assert Earliest(log + more, row.ref).Some?;
    EscalationsAreOpen(engines', datas', row.ref);
    var chosen := Chosen(engines', datas', log + more, now', row.ref);
    assert chosen.Some? && chosen.value.ref == row.ref && chosen.value in rows';
  }

  lemma EscalationsAreOpen(engines: seq<Entry>, datas: seq<Entry>, ref: Ref)
    ensures var e := First(EngineRows(engines), ref); e.Some? ==> e.value.origin == Escalation && e.value.state == Open
    ensures var d := First(DataRows(datas), ref); d.Some? ==> d.value.origin == Escalation && d.value.state == Open
  {
  }
}
