/** The cutover agent: one pass over the red feeds, gated on a fresh parity verdict, flipping the live
    provider overlay. */
module Cutover {
  import opened Prelude
  import opened RedChecks

  type Feed = string
  type Provider = string

  datatype Status = ACTIVE | FALLBACK | CANDIDATE | RETIRED

  datatype Binding = Binding(provider: Provider, status: Status)

  /** PROVIDER_BINDINGS: the declared bindings of a feed, in declaration order. */
  type Bindings = map<Feed, seq<Binding>>

  /** `provider_binding_state`: the live selection of a feed. */
  type Overlay = map<Feed, Provider>

  /** An `evaluate.<feed>.<candidate>` row of `data_quality_log`; `at` is in microseconds. */
  datatype Verdict = Verdict(source: string, at: Option<int>, confidence: Option<real>)

  const MAX_PARITY_AGE := 30 * 24 * 60 * 60 * 1_000_000

  function BindingsOf(bindings: Bindings, feed: Feed): seq<Binding> {
    if feed in bindings then bindings[feed] else []
  }

  /** The first binding of a list that satisfies a test. */
  function FirstWhere(bs: seq<Binding>, p: Binding -> bool): (b: Option<Binding>)
    ensures b.Some? <==> exists x <- bs :: p(x)
    ensures b.Some? ==> b.value in bs && p(b.value)
  {
    if bs == [] then None else if p(bs[0]) then Some(bs[0]) else FirstWhere(bs[1..], p)
  }

  /** `by_provider[provider]`: a dict built in declaration order keeps the last binding of a name. */
  function LastNamed(bs: seq<Binding>, provider: Provider): (b: Option<Binding>)
    ensures b.Some? <==> exists x <- bs :: x.provider == provider
    ensures b.Some? ==> b.value in bs && b.value.provider == provider
  {
    if bs == [] then None
    else
      var init, last := bs[..|bs| - 1], bs[|bs| - 1];
      assert bs == init + [last];
      if last.provider == provider then Some(last) else LastNamed(init, provider)
  }

  function FallbackFor(bindings: Bindings, feed: Feed): Option<Binding> {
    FirstWhere(BindingsOf(bindings, feed), (b: Binding) => b.status == FALLBACK)
  }

  function ResolveActive(bindings: Bindings, overlay: Overlay, feed: Feed): Option<Binding> {
    var bs := BindingsOf(bindings, feed);
    var declared := FirstWhere(bs, (b: Binding) => b.status == ACTIVE);
    if feed in overlay && overlay[feed] != "" then
      var selected := FirstWhere(bs, (b: Binding) => b.provider == overlay[feed]);
      if selected.Some? then selected else declared
    else declared
  }

  predicate PlanAllowed(bindings: Bindings, feed: Feed, to: Provider) {
    var target := LastNamed(BindingsOf(bindings, feed), to);
    target.Some? && target.value.status == FALLBACK
  }

  // ── The freshness gate ───────────────────────────────────────────────────

  function Source(feed: Feed, candidate: Provider): string {
    "evaluate." + feed + "." + candidate
  }

  /** In descending order a null timestamp sorts before every other. */
  predicate SortsBefore(a: Verdict, b: Verdict) {
    if b.at.None? then a.at.None? else a.at.None? || a.at.value >= b.at.value
  }

  /** ORDER BY timestamp DESC LIMIT 1. */
  function LatestVerdict(rows: seq<Verdict>, source: string): (latest: Option<Verdict>)
    ensures latest.Some? <==> exists v <- rows :: v.source == source
    ensures latest.Some? ==> latest.value in rows && latest.value.source == source
    ensures latest.Some? ==> forall v <- rows :: v.source == source ==> SortsBefore(latest.value, v)
  {
    if rows == [] then None
    else
      var rest := LatestVerdict(rows[1..], source);
      if rows[0].source != source then rest
      else if rest.None? || SortsBefore(rows[0], rest.value) then Some(rows[0])
      else rest
  }

  predicate ParityFresh(rows: seq<Verdict>, now: int, feed: Feed, candidate: Provider) {
    var latest := LatestVerdict(rows, Source(feed, candidate));
    if latest.None? then false
    else if latest.value.confidence.None? then false
    else if latest.value.confidence.value < 1.0 then false
    else if latest.value.at.None? then false
    else !(now - latest.value.at.value > MAX_PARITY_AGE)
  }

  predicate IsRecentPass(v: Verdict, now: int) {
    && v.confidence.Some? && v.confidence.value >= 1.0
    && v.at.Some? && now - v.at.value <= 30 * 24 * 60 * 60 * 1_000_000
  }

  /** A PASS of the source within thirty days that no row of the source comes after. */
  predicate PassOnFile(rows: seq<Verdict>, now: int, source: string) {
    exists v <- rows :: v.source == source && IsRecentPass(v, now)
      && forall w <- rows :: w.source == source ==> SortsBefore(v, w)
  }

  predicate DistinctTimes(rows: seq<Verdict>, source: string) {
    forall v, w :: v in rows && w in rows && v.source == source && w.source == source && v.at == w.at ==> v == w
  }

  /** The gate opens only on a recent PASS that nothing came after, and always then when no two rows of
      the pair carry one timestamp. */
  lemma FreshIff(rows: seq<Verdict>, now: int, feed: Feed, candidate: Provider)
    ensures ParityFresh(rows, now, feed, candidate) ==> PassOnFile(rows, now, Source(feed, candidate))
    ensures DistinctTimes(rows, Source(feed, candidate)) ==>
      (ParityFresh(rows, now, feed, candidate) <==> PassOnFile(rows, now, Source(feed, candidate)))
  {
    var source := Source(feed, candidate);
    var latest := LatestVerdict(rows, source);
    if ParityFresh(rows, now, feed, candidate) {
      assert latest.value in rows && IsRecentPass(latest.value, now);
    }
    if PassOnFile(rows, now, source) && DistinctTimes(rows, source) {
      var v :| v in rows && v.source == source && IsRecentPass(v, now)
        && forall w <- rows :: w.source == source ==> SortsBefore(v, w);
      assert SortsBefore(v, latest.value) && SortsBefore(latest.value, v);
      assert v == latest.value;
    }
  }

  // ── The decision, over the rows ──────────────────────────────────────────

  /** The last binding of a provider's name. */
  predicate LastAt(bs: seq<Binding>, provider: Provider, j: nat) {
    j < |bs| && bs[j].provider == provider && forall k :: j < k < |bs| ==> bs[k].provider != provider
  }

  lemma {:induction false} LastNamedIs(bs: seq<Binding>, provider: Provider, j: nat)
    requires LastAt(bs, provider, j)
    ensures LastNamed(bs, provider) == Some(bs[j])
  {
    if j < |bs| - 1 {
      LastNamedIs(bs[..|bs| - 1], provider, j);
    }
  }

  lemma {:induction false} SomeLast(bs: seq<Binding>, b: Binding)
    requires b in bs
    ensures exists j: nat :: LastAt(bs, b.provider, j)
  {
    var init, last := bs[..|bs| - 1], bs[|bs| - 1];
    if last.provider == b.provider {
      assert LastAt(bs, b.provider, |init|);
    } else {
      SomeLast(init, b);
      var j: nat :| LastAt(init, b.provider, j);
      assert LastAt(bs, b.provider, j);
    }
  }

  /** The legality plan, run after the gate, stops a cutover exactly when the last binding of the
      fallback's name is not a fallback; with one binding per provider it never does. */
  lemma PlanBlocksIff(bindings: Bindings, feed: Feed)
    requires FallbackFor(bindings, feed).Some?
    ensures var bs, fb := BindingsOf(bindings, feed), FallbackFor(bindings, feed).value;
      !PlanAllowed(bindings, feed, fb.provider) <==>
        exists j: nat :: LastAt(bs, fb.provider, j) && bs[j].status != FALLBACK
  {
    var bs, fb := BindingsOf(bindings, feed), FallbackFor(bindings, feed).value;
    SomeLast(bs, fb);
    forall j: nat | LastAt(bs, fb.provider, j) ensures LastNamed(bs, fb.provider) == Some(bs[j]) {
      LastNamedIs(bs, fb.provider, j);
    }
  }

  /** The first binding of the feed declared a fallback. */
  predicate FirstFallback(bs: seq<Binding>, i: nat) {
    i < |bs| && bs[i].status == FALLBACK && forall j :: 0 <= j < i ==> bs[j].status != FALLBACK
  }

  /** The binding in use: the first one of the provider that the overlay names, when it names one that is
      bound, else the first one declared active. */
  predicate Live(bs: seq<Binding>, named: Option<Provider>, k: nat) {
    k < |bs| &&
    if named.Some? && exists b <- bs :: b.provider == named.value
    then bs[k].provider == named.value && forall j :: 0 <= j < k ==> bs[j].provider != named.value
    else bs[k].status == ACTIVE && forall j :: 0 <= j < k ==> bs[j].status != ACTIVE
  }

  /** What the overlay names for a feed; an empty entry reads as none. */
  function NamedBy(overlay: Overlay, feed: Feed): Option<Provider> {
    if feed in overlay && overlay[feed] != "" then Some(overlay[feed]) else None
  }

  /** The fallback is the provider in use already. */
  predicate InUse(bs: seq<Binding>, named: Option<Provider>, provider: Provider) {
    exists k: nat | k < |bs| :: Live(bs, named, k) && bs[k].provider == provider
  }

  lemma {:induction false} FirstWhereIs(bs: seq<Binding>, p: Binding -> bool, i: nat)
    requires i < |bs| && p(bs[i]) && forall j :: 0 <= j < i ==> !p(bs[j])
    ensures FirstWhere(bs, p) == Some(bs[i])
  {
    if i > 0 {
      assert !p(bs[0]);
      FirstWhereIs(bs[1..], p, i - 1);
    }
  }

  lemma {:induction false} SomeFirst(bs: seq<Binding>, p: Binding -> bool) returns (i: nat)
    requires exists b <- bs :: p(b)
    ensures i < |bs| && p(bs[i]) && forall j :: 0 <= j < i ==> !p(bs[j])
  {
    if p(bs[0]) {
      i := 0;
    } else {
      var b :| b in bs && p(b);
      assert b in bs[1..];
      var rest := SomeFirst(bs[1..], p);
      i := rest + 1;
      assert forall j :: 0 < j < i ==> bs[j] == bs[1..][j - 1];
    }
  }

  /** The provider in use, as the overlay and the declarations give it. */
  lemma InUseIff(bindings: Bindings, overlay: Overlay, feed: Feed, provider: Provider)
    ensures var cur := ResolveActive(bindings, overlay, feed);
      InUse(BindingsOf(bindings, feed), NamedBy(overlay, feed), provider)
      <==> cur.Some? && cur.value.provider == provider
  {
    var bs, named := BindingsOf(bindings, feed), NamedBy(overlay, feed);
    var cur := ResolveActive(bindings, overlay, feed);
    if cur.Some? {
      var byName := named.Some? && exists b <- bs :: b.provider == named.value;
      if byName {
        assert exists b <- bs :: ((x: Binding) => x.provider == overlay[feed])(b);
        var k := SomeFirst(bs, (b: Binding) => b.provider == overlay[feed]);
        FirstWhereIs(bs, (b: Binding) => b.provider == overlay[feed], k);
        assert Live(bs, named, k);
      } else {
        var k := SomeFirst(bs, (b: Binding) => b.status == ACTIVE);
        FirstWhereIs(bs, (b: Binding) => b.status == ACTIVE, k);
        assert Live(bs, named, k);
      }
    }
    if InUse(bs, named, provider) {
      var k: nat :| k < |bs| && Live(bs, named, k) && bs[k].provider == provider;
      assert bs[k] in bs;
      if named.Some? && exists b <- bs :: b.provider == named.value {
        FirstWhereIs(bs, (b: Binding) => b.provider == overlay[feed], k);
      } else {
        FirstWhereIs(bs, (b: Binding) => b.status == ACTIVE, k);
      }
    }
  }

  // ── One pass ─────────────────────────────────────────────────────────────

  datatype Fate = Applied | Blocked | Dormant | Already

  /** What a pass reads and never writes; `clock(feed)` is the time when it reaches the feed. */
  datatype Inputs = Inputs(bindings: Bindings, verdicts: seq<Verdict>, clock: Feed -> int)

  function Decide(inp: Inputs, overlay: Overlay, feed: Feed): Fate {
    var fb := FallbackFor(inp.bindings, feed);
    if fb.None? then Dormant
    else
      var cur := ResolveActive(inp.bindings, overlay, feed);
      if cur.Some? && cur.value.provider == fb.value.provider then Already
      else if !ParityFresh(inp.verdicts, inp.clock(feed), feed, fb.value.provider) then Blocked
      else if !PlanAllowed(inp.bindings, feed, fb.value.provider) then Blocked
      else Applied
  }

  /** Binding `i` is the feed's first fallback, and its provider is not in use. */
  predicate Candidate(inp: Inputs, overlay: Overlay, feed: Feed, i: nat) {
    var bs := BindingsOf(inp.bindings, feed);
    FirstFallback(bs, i) && !InUse(bs, NamedBy(overlay, feed), bs[i].provider)
  }

  /** A recent PASS of the pair is on file, and the last binding of the provider's name is a fallback. */
  ghost predicate Cleared(inp: Inputs, feed: Feed, provider: Provider) {
    var bs := BindingsOf(inp.bindings, feed);
    && PassOnFile(inp.verdicts, inp.clock(feed), "evaluate." + feed + "." + provider)
    && exists j: nat :: LastAt(bs, provider, j) && bs[j].status == FALLBACK
  }

  /** Exactly which feeds meet each fate. With two verdicts of one pair at one timestamp the gate may read
      either, so only then is the split between applied and blocked one-sided. */
  ghost predicate Fitting(inp: Inputs, overlay: Overlay, feed: Feed, fate: Fate) {
    var bs := BindingsOf(inp.bindings, feed);
    && (fate == Dormant <==> forall b <- bs :: b.status != FALLBACK)
    && (fate == Already <==>
          exists i: nat :: FirstFallback(bs, i) && InUse(bs, NamedBy(overlay, feed), bs[i].provider))
    && (fate == Applied ==> exists i: nat :: Candidate(inp, overlay, feed, i) && Cleared(inp, feed, bs[i].provider))
    && (forall i: nat :: Candidate(inp, overlay, feed, i) ==>
          DistinctTimes(inp.verdicts, "evaluate." + feed + "." + bs[i].provider) ==>
          && (fate == Applied <==> Cleared(inp, feed, bs[i].provider))
          && (fate == Blocked <==> !Cleared(inp, feed, bs[i].provider)))
  }

  lemma FallbackIs(bindings: Bindings, feed: Feed, i: nat)
    requires FirstFallback(BindingsOf(bindings, feed), i)
    ensures FallbackFor(bindings, feed) == Some(BindingsOf(bindings, feed)[i])
  {
    FirstWhereIs(BindingsOf(bindings, feed), (b: Binding) => b.status == FALLBACK, i);
  }

  lemma ClearedIff(inp: Inputs, feed: Feed, i: nat)
    requires FirstFallback(BindingsOf(inp.bindings, feed), i)
    ensures var provider := BindingsOf(inp.bindings, feed)[i].provider;
      var opens := ParityFresh(inp.verdicts, inp.clock(feed), feed, provider)
        && PlanAllowed(inp.bindings, feed, provider);
      && (opens ==> Cleared(inp, feed, provider))
      && (DistinctTimes(inp.verdicts, "evaluate." + feed + "." + provider) ==>
            (opens <==> Cleared(inp, feed, provider)))
  {
    var bs := BindingsOf(inp.bindings, feed);
    FallbackIs(inp.bindings, feed, i);
    FreshIff(inp.verdicts, inp.clock(feed), feed, bs[i].provider);
    PlanBlocksIff(inp.bindings, feed);
    SomeLast(bs, bs[i]);
    var last: nat :| LastAt(bs, bs[i].provider, last);
    LastNamedIs(bs, bs[i].provider, last);
    forall j: nat | LastAt(bs, bs[i].provider, j) ensures j == last {
    }
  }

  /** Every feed meets the fate that fits it, over bindings, overlay and verdict rows. */
  lemma DecideFits(inp: Inputs, overlay: Overlay, feed: Feed)
    ensures Fitting(inp, overlay, feed, Decide(inp, overlay, feed))
  {
    var bs := BindingsOf(inp.bindings, feed);
    if exists b <- bs :: b.status == FALLBACK {
      assert exists b <- bs :: ((x: Binding) => x.status == FALLBACK)(b);
      var i := SomeFirst(bs, (b: Binding) => b.status == FALLBACK);
      assert FirstFallback(bs, i) && bs[i] in bs;
      FallbackIs(inp.bindings, feed, i);
      InUseIff(inp.bindings, overlay, feed, bs[i].provider);
      ClearedIff(inp, feed, i);
      forall k: nat | FirstFallback(bs, k) ensures k == i {
      }
    }
  }

  function Fates(inp: Inputs, overlay: Overlay): Feed -> Fate {
    (f: Feed) => Decide(inp, overlay, f)
  }

  function Is(fates: Feed -> Fate, fate: Fate): Feed -> bool {
    (f: Feed) => fates(f) == fate
  }

  function HasFate(inp: Inputs, overlay: Overlay, fate: Fate): Feed -> bool {
    Is(Fates(inp, overlay), fate)
  }

  function Fated(feeds: seq<Feed>, inp: Inputs, overlay: Overlay, fate: Fate): seq<Feed> {
    Filter(feeds, HasFate(inp, overlay, fate))
  }

  datatype PassResult = PassResult(cutovers: seq<Feed>, blocked: seq<Feed>, dormant: seq<Feed>, already: seq<Feed>)

  /** The four lists of a pass, each in the order of the feeds. */
  function Pass(feeds: seq<Feed>, inp: Inputs, overlay: Overlay): PassResult {
    PassResult(Fated(feeds, inp, overlay, Applied), Fated(feeds, inp, overlay, Blocked),
      Fated(feeds, inp, overlay, Dormant), Fated(feeds, inp, overlay, Already))
  }

  /** The overlay after some feeds were cut over: each selects its fallback, and no other changes. */
  ghost predicate Flipped(before: Overlay, after: Overlay, flipped: seq<Feed>, bindings: Bindings) {
    && (forall f <- flipped ::
          FallbackFor(bindings, f).Some? && f in after && after[f] == FallbackFor(bindings, f).value.provider)
    && (forall f: Feed :: f !in flipped ==>
          (f in before <==> f in after) && (f in before ==> before[f] == after[f]))
  }

  predicate Distinct(feeds: seq<Feed>) {
    forall i, j :: 0 <= i < j < |feeds| ==> feeds[i] != feeds[j]
  }

  /** `feeds` lists a set of feeds, each once; the source sorts them, everything here holds for any
      order. */
  ghost predicate Lists(feeds: seq<Feed>, red: set<Feed>) {
    Distinct(feeds) && forall f: Feed :: f in feeds <==> f in red
  }

  lemma {:induction false} ListsOnce(feeds: seq<Feed>, red: set<Feed>)
    requires Lists(feeds, red)
    ensures multiset(feeds) == multiset(red)
  {
    if feeds == [] {
      assert red == {};
    } else {
      var init, last := feeds[..|feeds| - 1], feeds[|feeds| - 1];
      assert feeds == init + [last];
      assert last !in init;
      ListsOnce(init, red - {last});
      assert red == (red - {last}) + {last};
    }
  }

  lemma FatedIs(feeds: seq<Feed>, inp: Inputs, overlay: Overlay, fate: Fate)
    ensures forall f: Feed :: f in Fated(feeds, inp, overlay, fate) <==> f in feeds && Decide(inp, overlay, f) == fate
  {
    FilterMembers(feeds, HasFate(inp, overlay, fate));
  }

  lemma FatedSnoc(feeds: seq<Feed>, feed: Feed, inp: Inputs, overlay: Overlay, fate: Fate)
    ensures Fated(feeds + [feed], inp, overlay, fate)
         == Fated(feeds, inp, overlay, fate) + if Decide(inp, overlay, feed) == fate then [feed] else []
  {
    FilterSnoc(feeds, feed, HasFate(inp, overlay, fate));
  }

  /** The lists with one more feed on the one its fate names. */
  function Landed(p: PassResult, feed: Feed, fate: Fate): PassResult {
    match fate
    case Applied => p.(cutovers := p.cutovers + [feed])
    case Blocked => p.(blocked := p.blocked + [feed])
    case Dormant => p.(dormant := p.dormant + [feed])
    case Already => p.(already := p.already + [feed])
  }

  lemma PassSnoc(feeds: seq<Feed>, feed: Feed, inp: Inputs, overlay: Overlay)
    ensures Pass(feeds + [feed], inp, overlay) == Landed(Pass(feeds, inp, overlay), feed, Decide(inp, overlay, feed))
  {
    FatedSnoc(feeds, feed, inp, overlay, Applied);
    FatedSnoc(feeds, feed, inp, overlay, Blocked);
    FatedSnoc(feeds, feed, inp, overlay, Dormant);
    FatedSnoc(feeds, feed, inp, overlay, Already);
  }

  lemma NextFeed(feeds: seq<Feed>, i: nat, inp: Inputs, overlay: Overlay)
    requires i < |feeds| && Distinct(feeds)
    ensures feeds[i] !in Pass(feeds[..i], inp, overlay).cutovers
    ensures Pass(feeds[..i + 1], inp, overlay)
         == Landed(Pass(feeds[..i], inp, overlay), feeds[i], Decide(inp, overlay, feeds[i]))
  {
    assert feeds[..i + 1] == feeds[..i] + [feeds[i]] && feeds[i] !in feeds[..i];
    PassSnoc(feeds[..i], feeds[i], inp, overlay);
    FatedIs(feeds[..i], inp, overlay, Applied);
  }

  /** All feeds of the four lists, counted. */
  function Tally(p: PassResult): multiset<Feed> {
    multiset(p.cutovers) + multiset(p.blocked) + multiset(p.dormant) + multiset(p.already)
  }

  function WithFallback(bindings: Bindings, overlay: Overlay, feed: Feed, flip: bool): Overlay {
    var fb := FallbackFor(bindings, feed);
    if flip && fb.Some? then overlay[feed := fb.value.provider] else overlay
  }

  lemma FlippedSnoc(before: Overlay, now: Overlay, flipped: seq<Feed>, bindings: Bindings, feed: Feed)
    requires Flipped(before, now, flipped, bindings) && feed !in flipped && FallbackFor(bindings, feed).Some?
    ensures Flipped(before, WithFallback(bindings, now, feed, true), flipped + [feed], bindings)
  {
  }

  lemma DecideReadsOwnFeed(inp: Inputs, a: Overlay, b: Overlay, feed: Feed)
    requires feed in a <==> feed in b
    requires feed in a ==> a[feed] == b[feed]
    ensures Decide(inp, a, feed) == Decide(inp, b, feed)
  {
    if feed in a && a[feed] != "" {
      var bs := BindingsOf(inp.bindings, feed);
      assert FirstWhere(bs, (x: Binding) => x.provider == a[feed])
          == FirstWhere(bs, (x: Binding) => x.provider == b[feed]);
    }
  }

  /** One PROVIDER_CUTOVER row. The provider demoted is the declared ACTIVE, whatever the overlay says. */
  datatype Audit = Audit(feed: Feed, demoted: Option<Provider>, promoted: Provider)

  function DeclaredActive(bindings: Bindings, feed: Feed): Option<Provider> {
    var declared := FirstWhere(BindingsOf(bindings, feed), (b: Binding) => b.status == ACTIVE);
    if declared.Some? then Some(declared.value.provider) else None
  }

  function AuditOf(bindings: Bindings, feed: Feed): Audit {
    var fb := FallbackFor(bindings, feed);
    Audit(feed, DeclaredActive(bindings, feed), if fb.Some? then fb.value.provider else "")
  }

  function AuditsOf(bindings: Bindings, feeds: seq<Feed>): seq<Audit> {
    seq(|feeds|, i requires 0 <= i < |feeds| => AuditOf(bindings, feeds[i]))
  }

  lemma AuditsSnoc(bindings: Bindings, feeds: seq<Feed>, feed: Feed)
    ensures AuditsOf(bindings, feeds + [feed]) == AuditsOf(bindings, feeds) + [AuditOf(bindings, feed)]
  {
  }

  predicate OnList(p: PassResult, feed: Feed, fate: Fate) {
    && (feed in p.cutovers <==> fate == Applied) && (feed in p.blocked <==> fate == Blocked)
    && (feed in p.dormant <==> fate == Dormant) && (feed in p.already <==> fate == Already)
  }

  /** Every feed is on the list of the fate that fits it, and each list is in the order of the feeds. */
  ghost predicate SortedOut(feeds: seq<Feed>, inp: Inputs, overlay: Overlay, p: PassResult) {
    && (forall f <- feeds :: exists fate :: Fitting(inp, overlay, f, fate) && OnList(p, f, fate))
    && Subsequence(p.cutovers, feeds) && Subsequence(p.blocked, feeds)
    && Subsequence(p.dormant, feeds) && Subsequence(p.already, feeds)
  }

  lemma PassSortsOut(feeds: seq<Feed>, inp: Inputs, overlay: Overlay)
    ensures SortedOut(feeds, inp, overlay, Pass(feeds, inp, overlay))
  {
    var p := Pass(feeds, inp, overlay);
    forall f <- feeds ensures exists fate :: Fitting(inp, overlay, f, fate) && OnList(p, f, fate) {
      DecideFits(inp, overlay, f);
      FatedIs(feeds, inp, overlay, Applied);
      FatedIs(feeds, inp, overlay, Blocked);
      FatedIs(feeds, inp, overlay, Dormant);
      FatedIs(feeds, inp, overlay, Already);
      assert OnList(p, f, Decide(inp, overlay, f));
    }
    FilterIsSubsequence(feeds, HasFate(inp, overlay, Applied));
    FilterIsSubsequence(feeds, HasFate(inp, overlay, Blocked));
    FilterIsSubsequence(feeds, HasFate(inp, overlay, Dormant));
    FilterIsSubsequence(feeds, HasFate(inp, overlay, Already));
  }

  /** The provider is the first fallback declared for the feed. */
  predicate Promotes(bindings: Bindings, feed: Feed, provider: Provider) {
    var bs := BindingsOf(bindings, feed);
    exists i: nat | i < |bs| :: FirstFallback(bs, i) && bs[i].provider == provider
  }

  /** The provider is the first declared active for the feed; None when none is. */
  predicate Demotes(bindings: Bindings, feed: Feed, provider: Option<Provider>) {
    var bs := BindingsOf(bindings, feed);
    if provider.None? then forall b <- bs :: b.status != ACTIVE
    else
      exists i: nat | i < |bs| :: bs[i].status == ACTIVE && bs[i].provider == provider.value
        && forall j :: 0 <= j < i ==> bs[j].status != ACTIVE
  }

  /** What the audit rows of a pass say. */
  predicate Recorded(bindings: Bindings, rows: seq<Audit>) {
    forall row <- rows :: Promotes(bindings, row.feed, row.promoted) && Demotes(bindings, row.feed, row.demoted)
  }

  predicate InStep(rows: seq<Audit>, feeds: seq<Feed>) {
    |rows| == |feeds| && forall k :: 0 <= k < |rows| ==> rows[k].feed == feeds[k]
  }

  lemma FallbackPromotes(bindings: Bindings, feed: Feed)
    requires FallbackFor(bindings, feed).Some?
    ensures Promotes(bindings, feed, FallbackFor(bindings, feed).value.provider)
  {
    var bs := BindingsOf(bindings, feed);
    var i := SomeFirst(bs, (b: Binding) => b.status == FALLBACK);
    assert FirstFallback(bs, i);
    FallbackIs(bindings, feed, i);
  }

  lemma DeclaredDemotes(bindings: Bindings, feed: Feed)
    ensures Demotes(bindings, feed, DeclaredActive(bindings, feed))
  {
    var bs := BindingsOf(bindings, feed);
    if DeclaredActive(bindings, feed).Some? {
      var i := SomeFirst(bs, (b: Binding) => b.status == ACTIVE);
      FirstWhereIs(bs, (b: Binding) => b.status == ACTIVE, i);
    } else {
      forall b <- bs ensures b.status != ACTIVE {
        assert !((x: Binding) => x.status == ACTIVE)(b);
      }
    }
  }

  /** The audit rows and the overlay after a pass, said of the bindings alone. */
  lemma PassRecords(bindings: Bindings, feeds: seq<Feed>)
    requires forall f <- feeds :: FallbackFor(bindings, f).Some?
    ensures Recorded(bindings, AuditsOf(bindings, feeds))
    ensures forall f <- feeds :: Promotes(bindings, f, FallbackFor(bindings, f).value.provider)
  {
    forall f <- feeds ensures Promotes(bindings, f, FallbackFor(bindings, f).value.provider) {
      FallbackPromotes(bindings, f);
    }
    forall row <- AuditsOf(bindings, feeds)
      ensures Promotes(bindings, row.feed, row.promoted) && Demotes(bindings, row.feed, row.demoted)
    {
      var i :| 0 <= i < |feeds| && AuditsOf(bindings, feeds)[i] == row;
      assert feeds[i] in feeds;
      DeclaredDemotes(bindings, feeds[i]);
    }
  }

  /** The feeds whose overlay is flipped by a pass that has finished with the first `done`: those it
      reports as cut over, and possibly the next one, when the raise comes between its two writes. */
  ghost predicate FlippedTo(feeds: seq<Feed>, done: nat, inp: Inputs, before: Overlay, flipped: seq<Feed>) {
    done <= |feeds| &&
    var cutovers := Pass(feeds[..done], inp, before).cutovers;
    flipped == cutovers
    || (done < |feeds| && Decide(inp, before, feeds[done]) == Applied && flipped == cutovers + [feeds[done]])
  }

  /** The pass has taken feed `i`, from an overlay with the earlier cutovers flipped. */
  lemma FeedTaken(feeds: seq<Feed>, i: nat, inp: Inputs, before: Overlay, was: Overlay, flip: bool)
    returns (flipped: seq<Feed>)
    requires i < |feeds| && Distinct(feeds)
    requires Flipped(before, was, Pass(feeds[..i], inp, before).cutovers, inp.bindings)
    requires flip ==> Decide(inp, was, feeds[i]) == Applied
    ensures Decide(inp, was, feeds[i]) == Decide(inp, before, feeds[i])
    ensures Pass(feeds[..i + 1], inp, before)
         == Landed(Pass(feeds[..i], inp, before), feeds[i], Decide(inp, before, feeds[i]))
    ensures flipped == Pass(feeds[..i], inp, before).cutovers + if flip then [feeds[i]] else []
    ensures FlippedTo(feeds, i, inp, before, flipped)
    ensures Flipped(before, WithFallback(inp.bindings, was, feeds[i], flip), flipped, inp.bindings)
  {
    var cutovers := Pass(feeds[..i], inp, before).cutovers;
    NextFeed(feeds, i, inp, before);
    DecideReadsOwnFeed(inp, was, before, feeds[i]);
    if flip {
      FlippedSnoc(before, was, cutovers, inp.bindings, feeds[i]);
      flipped := cutovers + [feeds[i]];
    } else {
      assert cutovers + [] == cutovers;
      flipped := cutovers;
    }
  }

  /** The same at the end of a pass, one that raised included. */
  lemma PassEnds(feeds: seq<Feed>, done: nat, inp: Inputs, before: Overlay, overlay: Overlay, flipped: seq<Feed>,
      was: seq<Audit>, audit: seq<Audit>)
    requires FlippedTo(feeds, done, inp, before, flipped) && Flipped(before, overlay, flipped, inp.bindings)
    requires audit == was + AuditsOf(inp.bindings, Pass(feeds[..done], inp, before).cutovers)
    ensures forall f <- flipped :: f in overlay && Promotes(inp.bindings, f, overlay[f])
    ensures was <= audit && Recorded(inp.bindings, audit[|was|..])
    ensures done == |feeds| ==> InStep(audit[|was|..], Pass(feeds, inp, before).cutovers)
  {
    var cutovers := Pass(feeds[..done], inp, before).cutovers;
    FatedIs(feeds[..done], inp, before, Applied);
    PassRecords(inp.bindings, cutovers);
    forall f <- flipped ensures Promotes(inp.bindings, f, overlay[f]) {
      FallbackPromotes(inp.bindings, f);
    }
    assert audit[|was|..] == AuditsOf(inp.bindings, cutovers);
    assert feeds[..|feeds|] == feeds;
  }

  /** `opsLeft` is how many database operations succeed before one raises. */
  class Agent {
    var overlay: Overlay
    var audit: seq<Audit>
    var opsLeft: nat

    constructor (overlay: Overlay, opsLeft: nat)
      ensures this.overlay == overlay && audit == [] && this.opsLeft == opsLeft
    {
      this.overlay, audit, this.opsLeft := overlay, [], opsLeft;
    }

    method Query() returns (raised: bool)
      modifies this`opsLeft
      ensures raised <==> old(opsLeft) == 0
    {
      if opsLeft == 0 {
        return true;
      }
      opsLeft := opsLeft - 1;
      raised := false;
    }

    /** The overlay upsert and the audit insert are two statements outside any transaction. */
    method ApplyCutover(feed: Feed, demoted: Option<Provider>, to: Provider) returns (raised: bool, ghost flip: bool)
      modifies this
      ensures !raised ==> flip
      ensures overlay == if flip then old(overlay)[feed := to] else old(overlay)
      ensures audit == old(audit) + if raised then [] else [Audit(feed, demoted, to)]
    {
      flip := false;
      raised := Query();
      if raised {
        return;
      }
      overlay := overlay[feed := to];
      flip := true;
      raised := Query();
      if raised {
        return;
      }
      audit := audit + [Audit(feed, demoted, to)];
    }

    /** One red feed: the branches of the pass, in order. `flip` says whether its overlay was written. */
    method TryFeed(feed: Feed, inp: Inputs) returns (raised: bool, fate: Fate, ghost flip: bool)
      modifies this
      ensures !raised ==> fate == Decide(inp, old(overlay), feed) && (flip <==> fate == Applied)
      ensures flip ==> Decide(inp, old(overlay), feed) == Applied
      ensures overlay == WithFallback(inp.bindings, old(overlay), feed, flip)
      ensures audit == old(audit) + if !raised && flip then [AuditOf(inp.bindings, feed)] else []
    {
      flip := false;
      var fb := FallbackFor(inp.bindings, feed);
      if fb.None? {
        return false, Dormant, flip;
      }
      raised := Query();
      if raised {
        return raised, Dormant, flip;
      }
      var cur := ResolveActive(inp.bindings, overlay, feed);
      if cur.Some? && cur.value.provider == fb.value.provider {
        return false, Already, flip;
      }
      raised := Query();
      if raised {
        return raised, Blocked, flip;
      }
      if !ParityFresh(inp.verdicts, inp.clock(feed), feed, fb.value.provider) {
        return false, Blocked, flip;
      }
      if !PlanAllowed(inp.bindings, feed, fb.value.provider) {
        return false, Blocked, flip;
      }
      raised, flip := ApplyCutover(feed, DeclaredActive(inp.bindings, feed), fb.value.provider);
      fate := Applied;
    }

    /** A pass that returns has every red feed in exactly one of the four lists and no other feed in
        any, has flipped exactly the feeds it reports as cut over, and has written their audit rows in
        that order. One that raises (`result` is None) has done so for the first `done` feeds, and may
        have flipped the next one without its audit row. */
    method RunCutoverPass(reg: Registry, validations: seq<Validation>, feeds: seq<Feed>, inp: Inputs)
      returns (result: Option<PassResult>, ghost done: nat, ghost flipped: seq<Feed>)
      requires Lists(feeds, RedFeeds(reg, RedOf(validations)))
      modifies this
      ensures FlippedTo(feeds, done, inp, old(overlay), flipped)
      ensures Flipped(old(overlay), overlay, flipped, inp.bindings)
      ensures audit == old(audit) + AuditsOf(inp.bindings, Pass(feeds[..done], inp, old(overlay)).cutovers)
      ensures result.Some? ==> result.value == Pass(feeds, inp, old(overlay)) && flipped == result.value.cutovers
      ensures result.Some? ==> Tally(result.value) == multiset(RedFeeds(reg, RedOf(validations)))
      ensures result.Some? <==> done == |feeds|
      ensures result.Some? ==> SortedOut(feeds, inp, old(overlay), result.value)
      ensures forall f <- flipped :: f in overlay && Promotes(inp.bindings, f, overlay[f])
      ensures old(audit) <= audit && Recorded(inp.bindings, audit[|old(audit)|..])
      ensures result.Some? ==> InStep(audit[|old(audit)|..], result.value.cutovers)
    {
      EveryFeedOnce(feeds, inp, overlay);
      ListsOnce(feeds, RedFeeds(reg, RedOf(validations)));
      PassSortsOut(feeds, inp, overlay);
      ghost var before, was := overlay, audit;
      result, done, flipped := WalkFeeds(feeds, inp);
      PassEnds(feeds, done, inp, before, overlay, flipped, was, audit);
    }

    method WalkFeeds(feeds: seq<Feed>, inp: Inputs)
      returns (result: Option<PassResult>, ghost done: nat, ghost flipped: seq<Feed>)
      requires Distinct(feeds)
      modifies this
      ensures FlippedTo(feeds, done, inp, old(overlay), flipped)
      ensures Flipped(old(overlay), overlay, flipped, inp.bindings)
      ensures audit == old(audit) + AuditsOf(inp.bindings, Pass(feeds[..done], inp, old(overlay)).cutovers)
      ensures result.Some? ==> result.value == Pass(feeds, inp, old(overlay)) && flipped == result.value.cutovers
      ensures result.Some? <==> done == |feeds|
    {
      var p := PassResult([], [], [], []);
      ghost var before := overlay;
      for i := 0 to |feeds|
        invariant p == Pass(feeds[..i], inp, before)
        invariant Flipped(before, overlay, p.cutovers, inp.bindings)
        invariant audit == old(audit) + AuditsOf(inp.bindings, p.cutovers)
      {
        ghost var was := overlay;
        ghost var flip;
        var raised, fate;
        raised, fate, flip := TryFeed(feeds[i], inp);
        flipped := FeedTaken(feeds, i, inp, before, was, flip);
        if raised {
          return None, i, flipped;
        }
        AuditsSnoc(inp.bindings, p.cutovers, feeds[i]);
        ConcatAssociates(old(audit), AuditsOf(inp.bindings, p.cutovers), [AuditOf(inp.bindings, feeds[i])]);
        p := Landed(p, feeds[i], fate);
      }
      assert feeds[..|feeds|] == feeds;
      result, done, flipped := Some(p), |feeds|, p.cutovers;
    }
  }

  // ── What a pass guarantees ───────────────────────────────────────────────

  lemma EveryFeedOnce(feeds: seq<Feed>, inp: Inputs, overlay: Overlay)
    ensures Tally(Pass(feeds, inp, overlay)) == multiset(feeds)
  {
    forall f: Feed ensures Tally(Pass(feeds, inp, overlay))[f] == multiset(feeds)[f] {
      FilterCounts(feeds, HasFate(inp, overlay, Applied), f);
      FilterCounts(feeds, HasFate(inp, overlay, Blocked), f);
      FilterCounts(feeds, HasFate(inp, overlay, Dormant), f);
      FilterCounts(feeds, HasFate(inp, overlay, Already), f);
    }
  }

  /** Nothing is cut over without a recent PASS of the very provider cut over to, that no later row
      overturns; and the provider was bound as a fallback and not live. */
  lemma AppliedMeansProven(feeds: seq<Feed>, inp: Inputs, overlay: Overlay, feed: Feed)
    requires feed in Pass(feeds, inp, overlay).cutovers
    ensures var fb := FallbackFor(inp.bindings, feed);
      && fb.Some? && fb.value in BindingsOf(inp.bindings, feed) && fb.value.status == FALLBACK
      && PassOnFile(inp.verdicts, inp.clock(feed), Source(feed, fb.value.provider))
      && (var cur := ResolveActive(inp.bindings, overlay, feed); cur.Some? ==> cur.value.provider != fb.value.provider)
  {
    FatedIs(feeds, inp, overlay, Applied);
    FreshIff(inp.verdicts, inp.clock(feed), feed, FallbackFor(inp.bindings, feed).value.provider);
  }

  /** The audit row names a provider that was not live exactly when the overlay had selected another
      than the declared one. */
  lemma AuditNamesLiveIff(inp: Inputs, overlay: Overlay, feed: Feed)
    requires DeclaredActive(inp.bindings, feed).Some?
    ensures var cur := ResolveActive(inp.bindings, overlay, feed);
      && cur.Some?
      && (AuditOf(inp.bindings, feed).demoted == Some(cur.value.provider) <==>
            feed !in overlay || overlay[feed] == "" || overlay[feed] == DeclaredActive(inp.bindings, feed).value
            || forall b <- BindingsOf(inp.bindings, feed) :: b.provider != overlay[feed])
  {
  }

  /** A flipped feed is already there, at any later time; any other is decided as before. */
  lemma FateAfterFlip(inp: Inputs, before: Overlay, after: Overlay, feed: Feed, flipped: seq<Feed>)
    requires Flipped(before, after, flipped, inp.bindings)
    requires forall b <- BindingsOf(inp.bindings, feed) :: b.provider != ""
    ensures Decide(inp, after, feed) == if feed in flipped then Already else Decide(inp, before, feed)
  {
    if feed in flipped {
      var fb := FallbackFor(inp.bindings, feed).value;
      assert after[feed] == fb.provider && fb in BindingsOf(inp.bindings, feed);
      assert ((b: Binding) => b.provider == after[feed])(fb);
      assert ResolveActive(inp.bindings, after, feed).value.provider == fb.provider;
    } else {
      DecideReadsOwnFeed(inp, before, after, feed);
    }
  }

  /** The same bindings and verdicts, read no earlier. */
  ghost predicate Later(inp: Inputs, later: Inputs, feeds: seq<Feed>) {
    && later.bindings == inp.bindings && later.verdicts == inp.verdicts
    && forall f <- feeds :: inp.clock(f) <= later.clock(f)
  }

  predicate Named(bindings: Bindings, feeds: seq<Feed>) {
    forall f <- feeds :: forall b <- BindingsOf(bindings, f) :: b.provider != ""
  }

  lemma SecondFate(feeds: seq<Feed>, inp: Inputs, later: Inputs, before: Overlay, after: Overlay, f: Feed)
    requires Flipped(before, after, Pass(feeds, inp, before).cutovers, inp.bindings)
    requires Later(inp, later, feeds) && Named(inp.bindings, feeds) && f in feeds
    ensures Decide(later, after, f) == if Decide(inp, before, f) == Applied then Already else Decide(inp, before, f)
  {
    FatedIs(feeds, inp, before, Applied);
    FateAfterFlip(later, before, after, f, Pass(feeds, inp, before).cutovers);
  }

  /** A second pass over the same red feeds, at any later time and with no new verdict, applies nothing
      and leaves the overlay alone: what was applied is now already there, and nothing else moves. */
  lemma SecondPassIsQuiet(feeds: seq<Feed>, inp: Inputs, later: Inputs, before: Overlay, after: Overlay)
    requires Flipped(before, after, Pass(feeds, inp, before).cutovers, inp.bindings)
    requires Later(inp, later, feeds) && Named(inp.bindings, feeds)
    ensures var p, p' := Pass(feeds, inp, before), Pass(feeds, later, after);
      && p'.cutovers == [] && p'.blocked == p.blocked && p'.dormant == p.dormant
      && p'.already == Filter(feeds, OnEither(p.already, p.cutovers))
  {
    var p := Pass(feeds, inp, before);
    FatedIs(feeds, inp, before, Applied);
    FatedIs(feeds, inp, before, Already);
    var was, becomes := Fates(inp, before), Fates(later, after);
    forall f | f in feeds
      ensures becomes(f) == if was(f) == Applied then Already else was(f)
      ensures OnEither(p.already, p.cutovers)(f) <==> becomes(f) == Already
    {
      SecondFate(feeds, inp, later, before, after, f);
    }
    SecondLists(feeds, was, becomes, OnEither(p.already, p.cutovers));
  }

  function OnEither(a: seq<Feed>, b: seq<Feed>): Feed -> bool {
    (f: Feed) => f in a || f in b
  }

  lemma SecondLists(feeds: seq<Feed>, was: Feed -> Fate, becomes: Feed -> Fate, already: Feed -> bool)
    requires forall f <- feeds :: becomes(f) == if was(f) == Applied then Already else was(f)
    requires forall f <- feeds :: already(f) <==> becomes(f) == Already
    ensures Filter(feeds, Is(becomes, Applied)) == [] && Filter(feeds, Is(becomes, Already)) == Filter(feeds, already)
    ensures Filter(feeds, Is(becomes, Blocked)) == Filter(feeds, Is(was, Blocked))
    ensures Filter(feeds, Is(becomes, Dormant)) == Filter(feeds, Is(was, Dormant))
  {
    FilterNone(feeds, Is(becomes, Applied));
    FilterSame(feeds, Is(becomes, Blocked), Is(was, Blocked));
    FilterSame(feeds, Is(becomes, Dormant), Is(was, Dormant));
    FilterSame(feeds, Is(becomes, Already), already);
  }

  lemma FlippedToIs(feeds: seq<Feed>, done: nat, inp: Inputs, before: Overlay, flipped: seq<Feed>, f: Feed)
    requires FlippedTo(feeds, done, inp, before, flipped) && f in flipped
    ensures f in feeds && Decide(inp, before, f) == Applied
  {
    FatedIs(feeds[..done], inp, before, Applied);
  }

  /** The feeds a pass from `before` would apply, save those flipped already. */
  function Remaining(inp: Inputs, before: Overlay, flipped: seq<Feed>): Feed -> bool {
    (f: Feed) => f !in flipped && Decide(inp, before, f) == Applied
  }

  /** What the next pass applies after some feeds have been flipped: what remains. */
  lemma NextPassApplies(feeds: seq<Feed>, inp: Inputs, flipped: seq<Feed>, before: Overlay, mid: Overlay)
    requires Flipped(before, mid, flipped, inp.bindings) && Named(inp.bindings, feeds)
    ensures Pass(feeds, inp, mid).cutovers == Filter(feeds, Remaining(inp, before, flipped))
  {
    forall f | f in feeds ensures HasFate(inp, mid, Applied)(f) == Remaining(inp, before, flipped)(f) {
      FateAfterFlip(inp, before, mid, f, flipped);
    }
    FilterSame(feeds, HasFate(inp, mid, Applied), Remaining(inp, before, flipped));
  }

  lemma FlippedTwice(
      before: Overlay, mid: Overlay, after: Overlay,
      first: seq<Feed>, second: seq<Feed>, all: seq<Feed>, bindings: Bindings)
    requires Flipped(before, mid, first, bindings) && Flipped(mid, after, second, bindings)
    requires forall f: Feed :: f in all <==> f in first || f in second
    ensures Flipped(before, after, all, bindings)
  {
  }

  /** A pass that raised, wherever it did, is completed by the next one: the next pass applies exactly
      what it would have applied from the start, save what is flipped already. If the verdicts of those
      are still fresh by then, the overlay ends as if there had been one pass and no exception. */
  lemma NextPassCompletes(
      feeds: seq<Feed>, inp: Inputs, later: Inputs, done: nat, flipped: seq<Feed>,
      before: Overlay, mid: Overlay, after: Overlay)
    requires FlippedTo(feeds, done, inp, before, flipped) && Flipped(before, mid, flipped, inp.bindings)
    requires Later(inp, later, feeds) && Named(inp.bindings, feeds)
    requires Flipped(mid, after, Pass(feeds, later, mid).cutovers, inp.bindings)
    ensures Pass(feeds, later, mid).cutovers == Filter(feeds, Remaining(later, before, flipped))
    ensures (forall f <- flipped :: Decide(later, before, f) == Applied) ==>
      Flipped(before, after, Pass(feeds, later, before).cutovers, inp.bindings)
  {
    NextPassApplies(feeds, later, flipped, before, mid);
    if forall f <- flipped :: Decide(later, before, f) == Applied {
      var second, all := Pass(feeds, later, mid).cutovers, Pass(feeds, later, before).cutovers;
      FatedIs(feeds, later, before, Applied);
      FilterMembers(feeds, Remaining(later, before, flipped));
      forall f | f in flipped ensures f in all {
        FlippedToIs(feeds, done, inp, before, flipped, f);
      }
      FlippedTwice(before, mid, after, flipped, second, all, inp.bindings);
    }
  }
}
