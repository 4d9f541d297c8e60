/** Validation results and the self-heal registry, as read by both the repair daemon and the
    cutover agent. */
module RedChecks {
  import opened Prelude

  /** One `validation.<check>` row of `platform.data_quality_log`. */
  datatype Validation = Validation(check: string, at: int, stale: bool, confidence: Option<real>)

  datatype HealSpec = HealSpec(checkName: string, source: string)

  /** HEAL_SPECS: registry key to spec. */
  type Registry = map<string, HealSpec>

  predicate IsLatest(rows: seq<Validation>, row: Validation) {
    row in rows && forall r <- rows :: r.check == row.check ==> r.at <= row.at
  }

  /** The shared red query: the latest row of a check is stale or below full confidence. */
  function RedOf(rows: seq<Validation>): set<string> {
    set r <- rows | IsLatest(rows, r) && (r.stale || (r.confidence.Some? && r.confidence.value < 1.0)) :: r.check
  }

  /** `_checks_for_source`: the check names the registry lists for a source. */
  function ChecksFor(reg: Registry, source: string): set<string> {
    set k <- reg | reg[k].source == source :: reg[k].checkName
  }

  /** The registry keys under which a source is listed. */
  function KeysFor(reg: Registry, source: string): set<string> {
    set k <- reg | reg[k].source == source :: k
  }

  predicate IsRed(reg: Registry, red: set<string>, source: string) {
    exists c <- ChecksFor(reg, source) :: c in red
  }

  /** `_sources_still_red`: the requested sources with a red check, in the order requested. */
  function StillRed(reg: Registry, requested: seq<string>, red: set<string>): seq<string> {
    Filter(requested, s => IsRed(reg, red, s))
  }

  lemma StillRedIs(reg: Registry, requested: seq<string>, red: set<string>)
    ensures forall s: string :: s in StillRed(reg, requested, red) <==> s in requested && IsRed(reg, red, s)
  {
    FilterMembers(requested, s => IsRed(reg, red, s));
  }

  /** `_red_feeds` of the cutover agent, which looks registry keys up instead of check names. */
  function RedFeeds(reg: Registry, red: set<string>): set<string> {
    set k <- reg | k in red :: reg[k].source
  }

  /** The latest row of the check is stale or below full confidence. */
  predicate Failing(rows: seq<Validation>, check: string) {
    exists row <- rows :: row.check == check && (forall r <- rows :: r.check == check ==> r.at <= row.at)
      && (row.stale || (row.confidence.Some? && row.confidence.value < 1.0))
  }

  /** A feed is red when it is registered under the name of a failing check. */
  lemma RedFeedIff(reg: Registry, rows: seq<Validation>, feed: string)
    ensures feed in RedFeeds(reg, RedOf(rows)) <==> exists key <- reg :: reg[key].source == feed && Failing(rows, key)
  {
    forall key: string ensures key in RedOf(rows) <==> Failing(rows, key) {
      if Failing(rows, key) {
        var row :| row in rows && row.check == key && (forall r <- rows :: r.check == key ==> r.at <= row.at)
          && (row.stale || (row.confidence.Some? && row.confidence.value < 1.0));
        assert IsLatest(rows, row);
      }
    }
  }

  /** The two readings agree on every source. */
  ghost predicate Agree(reg: Registry, red: set<string>) {
    forall requested: seq<string>, s: string ::
      s in StillRed(reg, requested, red) <==> s in requested && s in RedFeeds(reg, red)
  }

  /** The daemon and the cutover agent agree about every set of red checks exactly when the
      registry lists each source under the very names its specs carry. */
  lemma AgreementCondition(reg: Registry)
    ensures (forall red: set<string> :: Agree(reg, red)) <==> (forall s: string :: ChecksFor(reg, s) == KeysFor(reg, s))
  {
    if forall s: string :: ChecksFor(reg, s) == KeysFor(reg, s) {
      forall red: set<string> ensures Agree(reg, red) {
        forall requested: seq<string>
          ensures forall s: string :: s in StillRed(reg, requested, red) <==> s in requested && IsRed(reg, red, s)
        {
          StillRedIs(reg, requested, red);
        }
        forall s: string ensures s in RedFeeds(reg, red) <==> IsRed(reg, red, s) {
          assert ChecksFor(reg, s) == KeysFor(reg, s);
          if s in RedFeeds(reg, red) {
            var k :| k in reg && k in red && reg[k].source == s;
            assert k in KeysFor(reg, s);
          }
          if IsRed(reg, red, s) {
            var c :| c in ChecksFor(reg, s) && c in red;
            assert c in KeysFor(reg, s);
          }
        }
      }
    }
    if forall red: set<string> :: Agree(reg, red) {
      forall s: string ensures ChecksFor(reg, s) == KeysFor(reg, s) {
        forall c: string ensures c in ChecksFor(reg, s) <==> c in KeysFor(reg, s) {
          assert Agree(reg, {c});
          StillRedIs(reg, [s], {c});
          assert s in StillRed(reg, [s], {c}) <==> s in [s] && s in RedFeeds(reg, {c});
        }
      }
    }
  }

  /** In particular they agree when every key equals its spec's check name. */
  lemma KeysAreCheckNames(reg: Registry, red: set<string>, requested: seq<string>, s: string)
    requires forall k <- reg :: reg[k].checkName == k
    ensures s in StillRed(reg, requested, red) <==> s in requested && s in RedFeeds(reg, red)
  {
    forall t: string ensures ChecksFor(reg, t) == KeysFor(reg, t) {
    }
    AgreementCondition(reg);
    assert Agree(reg, red);
    StillRedIs(reg, requested, red);
    StillRedIs(reg, [s], red);
    assert s in StillRed(reg, [s], red) <==> s in [s] && s in RedFeeds(reg, red);
  }
}
