/**
  Properties that relate several operations of the proxy store: what a bulk
  invalidation hides until a re-harvest, how many rows a limited query returns,
  that the failure report finds exactly the row whose URL it is given, and that
  retention and upserts are idempotent.
*/
module StoreProperties {
  import opened Text
  import opened Models
  import opened Store

  /** What the WHERE clauses promise a caller: the two working-proxy queries return
      only current working rows, the checked one only rows checked after the bound
      and the collected one only rows collected after it; the never-probed query
      shares no row with either; and moving a window's lower bound later can only
      drop rows. */
  lemma FilterGuarantees(t: Table, m: int, later: int)
    requires m <= later
    ensures forall k :: k in Qualifying(t, CheckedAfter(m)) ==>
              t[k].status == Working && !t[k].isOutdated && t[k].lastCheck.Some? && t[k].lastCheck.value > m
    ensures forall k :: k in Qualifying(t, CollectedAfter(m)) ==>
              t[k].status == Working && !t[k].isOutdated && t[k].collectionDate > m
    ensures Qualifying(t, NeverChecked) * (Qualifying(t, CheckedAfter(m)) + Qualifying(t, CollectedAfter(m))) == {}
    ensures Qualifying(t, CheckedAfter(later)) <= Qualifying(t, CheckedAfter(m))
    ensures Qualifying(t, CollectedAfter(later)) <= Qualifying(t, CollectedAfter(m))
  {
  }

  /** After `mark_all_outdated` no filter admits any row: every query condition
      includes `is_outdated = 0`. */
  lemma OutdatedHidesEveryRow(t: Table, f: Filter)
    ensures Qualifying(AllOutdated(t), f) == {}
  {
  }

  /** So every query over an invalidated table returns nothing. */
  lemma OutdatedQueriesAreEmpty(t: Table, f: Filter, limit: nat, keys: seq<Key>)
    requires IsSelection(AllOutdated(t), f, limit, keys)
    ensures keys == []
  {
    OutdatedHidesEveryRow(t, f);
    SelectionSize(AllOutdated(t), f, limit, keys);
  }

  /** Until it is re-added, a key stays hidden: after invalidation and one upsert,
      only the upserted key can qualify. */
  lemma ReaddedKeyIsOnlyCandidate(t: Table, k: Key, protocol: string, collectionDate: int, f: Filter)
    ensures Qualifying(Upsert(AllOutdated(t), k, protocol, collectionDate), f) <= {k}
  {
  }

  /** The elements of a duplicate-free sequence are as many as its length. */
  lemma {:induction false} DistinctCount(keys: seq<Key>)
    requires Distinct(keys)
    ensures |set i | 0 <= i < |keys| :: keys[i]| == |keys|
  {
    if |keys| > 0 {
      var front := keys[..|keys| - 1];
      assert Distinct(front);
      DistinctCount(front);
      var s := set i | 0 <= i < |keys| :: keys[i];
      var s' := set i | 0 <= i < |front| :: front[i];
      assert s == s' + {keys[|keys| - 1]};
      assert keys[|keys| - 1] !in s';
    }
  }

  /** A limited query returns `min(limit, number of admitted rows)` rows. */
  lemma SelectionSize(t: Table, f: Filter, limit: nat, keys: seq<Key>)
    requires IsSelection(t, f, limit, keys)
    ensures |keys| == if limit < |Qualifying(t, f)| then limit else |Qualifying(t, f)|
  {
    var q := Qualifying(t, f);
    var s := set i | 0 <= i < |keys| :: keys[i];
    DistinctCount(keys);
    assert s <= q;
    assert |q - s| + |s| == |q|;
    if |keys| < limit {
      assert q <= s;
      assert q == s;
    }
  }

  /** When `needs_update` says no, a request for at least ten collected proxies
      comes back with at least ten. */
  lemma FreshPoolFillsRequest(t: Table, minDate: int, limit: nat, keys: seq<Key>)
    requires |Qualifying(t, CollectedAfter(minDate))| >= MinFreshPool
    requires limit >= MinFreshPool
    requires IsOrderedSelection(t, CollectedAfter(minDate), limit, keys)
    ensures |keys| >= MinFreshPool
  {
    SelectionSize(t, CollectedAfter(minDate), limit, keys);
  }

  /** `mark_proxy_as_failed(url)` with the URL a query reported for a row (colon-free
      protocol and ip) updates that row and no other. */
  lemma MarkFailedByUrl(t: Table, k: Key, now: int)
    requires k in t && ':' !in t[k].protocol && ':' !in k.ip
    ensures var parsed := ParseProxyUrl(FormatUrl(t[k].protocol, k.ip, k.port));
            && parsed.Success?
            && MarkFailed(t, parsed.value, now) == t[k := t[k].(status := Failed, lastCheck := Some(now))]
  {
    var parsed := ParseProxyUrl(FormatUrl(t[k].protocol, k.ip, k.port));
    FormatUrlRoundTrip(t[k].protocol, k.ip, k.port);
    ParseIntToString(k.port);
    assert parsed.value == AddressParts(k.ip, IntToString(k.port));
    forall j | j in t ensures TargetsKey(parsed.value, j) <==> j == k {
    }
    var r := MarkFailed(t, parsed.value, now);
    var expected := t[k := t[k].(status := Failed, lastCheck := Some(now))];
    assert r.Keys == expected.Keys;
    forall j | j in r ensures r[j] == expected[j] {
    }
  }

  /** A failure report that names no stored key changes nothing. */
  lemma MarkFailedWithoutMatch(t: Table, target: AddressParts, now: int)
    requires forall k :: k in t ==> !TargetsKey(target, k)
    ensures MarkFailed(t, target, now) == t
  {
    var r := MarkFailed(t, target, now);
    assert r.Keys == t.Keys;
    forall k | k in t ensures r[k] == t[k] {
    }
  }

  /** A row reported as failed leaves both working-proxy queries, and the other rows
      they admit stay admitted. */
  lemma ReportedFailureLeavesWorkingQueries(t: Table, k: Key, now: int, f: Filter)
    requires k in t && !f.NeverChecked?
    ensures Qualifying(t[k := t[k].(status := Failed, lastCheck := Some(now))], f) == Qualifying(t, f) - {k}
  {
  }

  /** Re-running the cleanup with the same cutoff deletes nothing more. */
  lemma CleanupIdempotent(t: Table, cutoff: int)
    ensures Cleanup(Cleanup(t, cutoff), cutoff) == Cleanup(t, cutoff)
  {
    var once := Cleanup(t, cutoff);
    var twice := Cleanup(once, cutoff);
    assert twice.Keys == once.Keys;
  }

  /** Upserting the same key with the same values twice is upserting it once. */
  lemma UpsertIdempotent(t: Table, k: Key, protocol: string, collectionDate: int)
    ensures Upsert(Upsert(t, k, protocol, collectionDate), k, protocol, collectionDate)
            == Upsert(t, k, protocol, collectionDate)
  {
  }

  /** The statistics of the manager test case: one working, one failed, one
      unchecked row, none outdated, give 3/1/1/1/0. */
  lemma StatisticsExample(a: Key, b: Key, c: Key, ra: Row, rb: Row, rc: Row)
    requires a != b && b != c && a != c
    requires ra.status == Working && rb.status == Failed && rc.status == Unchecked
    requires !ra.isOutdated && !rb.isOutdated && !rc.isOutdated
    ensures Stats(map[a := ra, b := rb, c := rc]) == Statistics(3, 1, 1, 1, 0)
  {
    var t := map[a := ra, b := rb, c := rc];
    assert t.Keys == {a, b, c};
    assert WithStatus(t, Working) == {a};
    assert WithStatus(t, Failed) == {b};
    assert WithStatus(t, Unchecked) == {c};
    assert (set k | k in t && t[k].isOutdated) == {};
  }
}
