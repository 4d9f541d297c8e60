/** The part of `platform.application_log` that the data-repair handshake reads and writes. */
module RepairLog {
  import opened Prelude

  /** Database timestamps, in microseconds. */
  type Time = int

  /** A parsed ENGINE_DATA_REQUEST payload; an unparseable one has neither field.
      `sources` is None when the key is missing or not a list. */
  datatype Request = Request(id: Option<string>, sources: Option<seq<string>>)

  datatype Reason =
    | MalformedSources
    | ValidationExited(rc: int)
    | HealReasons(reasons: seq<string>)

  /** The two terminal events. */
  datatype Reply =
    | Complete(id: string, healed: seq<string>, stillRed: seq<string>, green: bool)
    | Escalated(id: string, unhealed: seq<string>, reason: Reason, attempts: int)

  /** One polled request: (recorded_at, parsed payload). */
  datatype Ask = Ask(at: Time, request: Request)

  datatype Row = Asked(ask: Ask) | Replied(reply: Reply)

  /** A request the daemon can answer: it carries a non-empty correlation key. */
  predicate Addressable(ask: Ask) {
    ask.request.id.Some? && ask.request.id.value != ""
  }

  function IdOf(ask: Ask): string
    requires Addressable(ask)
  {
    ask.request.id.value
  }

  predicate RepliesTo(row: Row, id: string) {
    row.Replied? && row.reply.id == id
  }

  predicate Asks(row: Row, id: string) {
    row.Asked? && Addressable(row.ask) && IdOf(row.ask) == id
  }

  /** The durable guard: some terminal row carries this request id. */
  predicate TerminalExists(log: seq<Row>, id: string) {
    exists i :: 0 <= i < |log| && RepliesTo(log[i], id)
  }

  /** No request id has two terminals. */
  ghost predicate AtMostOneReply(log: seq<Row>) {
    forall i, j :: 0 <= i < j < |log| && log[i].Replied? && log[j].Replied? ==> log[i].reply.id != log[j].reply.id
  }

  /** Row `i` is a request, and no other request carries its timestamp. */
  ghost predicate Unshared(log: seq<Row>, i: nat) {
    && i < |log| && log[i].Asked?
    && forall j :: 0 <= j < |log| && j != i && log[j].Asked? ==> log[j].ask.at != log[i].ask.at
  }

  /** Row `i` is a request with a timestamp of its own that became visible in its turn: every request
      inserted before it is recorded earlier. A timestamp is fixed when the inserting transaction starts
      and the row is seen when it commits, so later rows may still carry smaller ones. */
  ghost predicate Prompt(log: seq<Row>, i: nat) {
    Unshared(log, i) && forall j :: 0 <= j < i && log[j].Asked? ==> log[j].ask.at < log[i].ask.at
  }

  ghost predicate Sorted(asks: seq<Ask>) {
    forall x, y :: 0 <= x < y < |asks| ==> asks[x].at <= asks[y].at
  }

  /** Where a request of time `at` goes among requests in order of time: behind those of the same time. */
  function Place(asks: seq<Ask>, at: Time): (p: nat)
    ensures p <= |asks|
  {
    if asks == [] || asks[|asks| - 1].at <= at then |asks| else Place(asks[..|asks| - 1], at)
  }

  function InTime(asks: seq<Ask>, ask: Ask): seq<Ask> {
    var p := Place(asks, ask.at);
    asks[..p] + [ask] + asks[p..]
  }

  /** The poll: every request recorded strictly after the cursor, oldest first. */
  function Pending(log: seq<Row>, cursor: Time): seq<Ask> {
    if log == [] then []
    else
      var front, last := Pending(log[..|log| - 1], cursor), log[|log| - 1];
      if last.Asked? && last.ask.at > cursor then InTime(front, last.ask) else front
  }

  lemma {:induction false} PlaceSplits(asks: seq<Ask>, at: Time)
    requires Sorted(asks)
    ensures forall x :: 0 <= x < |asks| ==> (asks[x].at <= at <==> x < Place(asks, at))
  {
    if asks != [] && asks[|asks| - 1].at > at {
      PlaceSplits(asks[..|asks| - 1], at);
    }
  }

  lemma InTimeMembers(asks: seq<Ask>, ask: Ask)
    ensures forall a :: a in InTime(asks, ask) <==> a in asks || a == ask
  {
    var p := Place(asks, ask.at);
    assert asks == asks[..p] + asks[p..];
  }

  lemma {:induction false} PendingMembers(log: seq<Row>, cursor: Time)
    ensures forall a <- Pending(log, cursor) :: a.at > cursor && Asked(a) in log
    ensures forall i :: 0 <= i < |log| && log[i].Asked? && log[i].ask.at > cursor ==> log[i].ask in Pending(log, cursor)
  {
    if log != [] {
      var front, last := log[..|log| - 1], log[|log| - 1];
      PendingMembers(front, cursor);
      assert log == front + [last];
      if last.Asked? {
        InTimeMembers(Pending(front, cursor), last.ask);
      }
    }
  }

  /** Every request recorded after the cursor is polled, as often as it is in the log, and nothing else. */
  lemma {:induction false} PendingCounts(log: seq<Row>, cursor: Time, ask: Ask)
    ensures multiset(Pending(log, cursor))[ask] == if ask.at > cursor then multiset(log)[Asked(ask)] else 0
  {
    if log != [] {
      var front, last := log[..|log| - 1], log[|log| - 1];
      PendingCounts(front, cursor, ask);
      assert log == front + [last];
      if last.Asked? {
        var polled, p := Pending(front, cursor), Place(Pending(front, cursor), last.ask.at);
        assert polled == polled[..p] + polled[p..];
      }
    }
  }

  lemma PendingSnoc(log: seq<Row>, row: Row, cursor: Time)
    ensures Pending(log + [row], cursor)
         == if row.Asked? && row.ask.at > cursor then InTime(Pending(log, cursor), row.ask) else Pending(log, cursor)
  {
    assert (log + [row])[..|log|] == log;
  }

  lemma TerminalSnoc(log: seq<Row>, row: Row, id: string)
    ensures TerminalExists(log + [row], id) <==> TerminalExists(log, id) || RepliesTo(row, id)
  {
    var longer := log + [row];
    if TerminalExists(log, id) {
      var i :| 0 <= i < |log| && RepliesTo(log[i], id);
      assert RepliesTo(longer[i], id);
    }
    if RepliesTo(row, id) {
      assert RepliesTo(longer[|log|], id);
    }
  }

  lemma UnsharedInFront(log: seq<Row>, row: Row, i: nat)
    requires Unshared(log + [row], i) && i < |log|
    ensures Unshared(log, i) && (Prompt(log + [row], i) ==> Prompt(log, i))
  {
    var longer := log + [row];
    assert forall j :: 0 <= j < |log| ==> longer[j] == log[j];
  }

  /** A request of the same time as an unshared one is that request. */
  lemma UnsharedIsOne(log: seq<Row>, i: nat, ask: Ask)
    requires Unshared(log, i) && Asked(ask) in log && ask.at == log[i].ask.at
    ensures ask == log[i].ask
  {
    var j :| 0 <= j < |log| && log[j] == Asked(ask);
  }

  /** The poll returns requests oldest first, whatever order they became visible in. */
  lemma {:induction false} PendingSorted(log: seq<Row>, cursor: Time)
    ensures Sorted(Pending(log, cursor))
  {
    if log != [] {
      var front, last := log[..|log| - 1], log[|log| - 1];
      PendingSorted(front, cursor);
      if last.Asked? {
        PlaceSplits(Pending(front, cursor), last.ask.at);
      }
    }
  }

  lemma {:induction false} PendingNothing(log: seq<Row>, cursor: Time)
    requires forall i :: 0 <= i < |log| && log[i].Asked? ==> log[i].ask.at <= cursor
    ensures Pending(log, cursor) == []
  {
    if log != [] {
      PendingNothing(log[..|log| - 1], cursor);
    }
  }
}
