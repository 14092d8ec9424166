/**
  The `proxies` table of `proxy_manager/manager.py` and the `ProxyManager`
  operations on it. The table is a map from the primary key `(ip, port)` to the
  other columns; every SQL statement is given its relational meaning as a
  function on that map, and `ProxyManager`'s methods are proved to move the table
  exactly as those functions say. SELECT ... ORDER BY response_time LIMIT n is
  modelled by `SelectOrdered`, a selection loop proved against the predicate
  `IsOrderedSelection` (filter soundness, completeness up to the limit, latency
  order, and "the fastest are taken first").
*/
module Store {
  import opened Text
  import opened Models

  /** The primary key `(ip, port)`. */
  datatype Key = Key(ip: string, port: int)

  /** The non-key columns of one row. Timestamps are integer seconds; `None` is SQL NULL. */
  datatype Row = Row(
    protocol: string,
    country: Option<string>,
    anonymity: Option<string>,
    collectionDate: int,
    lastCheck: Option<int>,
    responseTime: Option<nat>,
    status: Status,
    isOutdated: bool)

  type Table = map<Key, Row>

  const SecondsPerHour: int := 3600
  const SecondsPerDay: int := 86400
  /** `needs_update` asks for a refresh below this many fresh working proxies. */
  const MinFreshPool: nat := 10

  /** The row `INSERT INTO proxies (ip, port, protocol, collection_date, is_outdated)`
      creates: every other column NULL, `is_outdated = 0`. */
  function NewRow(protocol: string, collectionDate: int): Row
  {
    Row(protocol, None, None, collectionDate, None, None, Unchecked, false)
  }

  /** `INSERT ... ON CONFLICT(ip, port) DO UPDATE SET protocol, collection_date, is_outdated = 0`. */
  function Upsert(t: Table, k: Key, protocol: string, collectionDate: int): (r: Table)
    ensures r.Keys == t.Keys + {k}
    ensures |r| == if k in t then |t| else |t| + 1
    ensures r[k].protocol == protocol && r[k].collectionDate == collectionDate && !r[k].isOutdated
    ensures k !in t ==> r[k].status == Unchecked && r[k].responseTime == None
                        && r[k].lastCheck == None && r[k].country == None && r[k].anonymity == None
    ensures k in t ==> r[k].status == t[k].status && r[k].responseTime == t[k].responseTime
                       && r[k].lastCheck == t[k].lastCheck && r[k].country == t[k].country
                       && r[k].anonymity == t[k].anonymity
    ensures forall j :: j in t && j != k ==> j in r && r[j] == t[j]
  {
    if k in t then t[k := t[k].(protocol := protocol, collectionDate := collectionDate, isOutdated := false)]
    else t[k := NewRow(protocol, collectionDate)]
  }

  /** `UPDATE proxies SET is_outdated = 1`. */
  function AllOutdated(t: Table): (r: Table)
    ensures r.Keys == t.Keys
    ensures forall k :: k in t ==> r[k].isOutdated && r[k].(isOutdated := false) == t[k].(isOutdated := false)
  {
    map k | k in t :: t[k].(isOutdated := true)
  }

  /** `UPDATE proxies SET status = 'failed', last_check = now WHERE ip = ? AND port = ?`,
      with the port given as text: it matches the integer column when it reads as that
      integer. At most one row matches, since (ip, port) is the key. */
  function MarkFailed(t: Table, target: AddressParts, now: int): (r: Table)
    ensures r.Keys == t.Keys
    ensures forall k :: k in t && !TargetsKey(target, k) ==> r[k] == t[k]
    ensures forall k :: k in t && TargetsKey(target, k) ==>
              r[k] == t[k].(status := Failed, lastCheck := Some(now))
  {
    map k | k in t :: if TargetsKey(target, k) then t[k].(status := Failed, lastCheck := Some(now)) else t[k]
  }

  /** The WHERE clause `ip = ? AND port = ?` of `mark_proxy_as_failed`. */
  predicate TargetsKey(target: AddressParts, k: Key)
  {
    target.ip == k.ip && ParseInteger(target.port) == Some(k.port)
  }

  /** The rows `cleanup_old_data` deletes: `collection_date < cutoff OR (status = 'failed'
      AND last_check < cutoff)`; a NULL `last_check` never satisfies the comparison. */
  predicate Expired(row: Row, cutoff: int)
  {
    row.collectionDate < cutoff || (row.status == Failed && row.lastCheck.Some? && row.lastCheck.value < cutoff)
  }

  /** `DELETE FROM proxies WHERE <Expired>`. */
  function Cleanup(t: Table, cutoff: int): (r: Table)
    ensures forall k :: k in t ==> (k in r <==> !Expired(t[k], cutoff))
    ensures forall k :: k in r ==> k in t && r[k] == t[k]
  {
    map k | k in t && !Expired(t[k], cutoff) :: t[k]
  }

  /** The WHERE clauses of the read-only queries. */
  datatype Filter =
    | CheckedAfter(minDate: int)    // status = 'working' AND is_outdated = 0 AND last_check > ?
    | CollectedAfter(minDate: int)  // status = 'working' AND is_outdated = 0 AND collection_date > ?
    | NeverChecked                  // status IS NULL AND is_outdated = 0

  predicate Matches(f: Filter, row: Row)
  {
    match f
    case CheckedAfter(minDate) =>
      row.status == Working && !row.isOutdated && row.lastCheck.Some? && row.lastCheck.value > minDate
    case CollectedAfter(minDate) =>
      row.status == Working && !row.isOutdated && row.collectionDate > minDate
    case NeverChecked =>
      row.status == Unchecked && !row.isOutdated
  }

  /** The keys of the rows a filter admits. */
  function Qualifying(t: Table, f: Filter): (q: set<Key>)
    ensures forall k :: k in q <==> k in t && Matches(f, t[k])
  {
    set k | k in t && Matches(f, t[k])
  }

  /** `ORDER BY response_time ASC` as SQLite orders it: NULL before every number. */
  predicate FasterOrEqual(a: Option<nat>, b: Option<nat>)
  {
    a.None? || (b.Some? && a.value <= b.value)
  }

  ghost predicate Distinct(keys: seq<Key>)
  {
    forall i, j :: 0 <= i < j < |keys| ==> keys[i] != keys[j]
  }

  /** `SELECT ... WHERE f LIMIT limit` without an order: at most `limit` distinct rows,
      each admitted by the filter, and all of them when fewer than `limit` come back. */
  ghost predicate IsSelection(t: Table, f: Filter, limit: nat, keys: seq<Key>)
  {
    && |keys| <= limit
    && Distinct(keys)
    && (forall i :: 0 <= i < |keys| ==> keys[i] in Qualifying(t, f))
    && (|keys| < limit ==> forall k :: k in Qualifying(t, f) ==> k in keys)
  }

  /** `SELECT ... WHERE f ORDER BY response_time ASC LIMIT limit`: a selection in
      ascending latency, and no admitted row left out is faster than one taken. */
  ghost predicate IsOrderedSelection(t: Table, f: Filter, limit: nat, keys: seq<Key>)
  {
    && IsSelection(t, f, limit, keys)
    && (forall i, j :: 0 <= i < j < |keys| ==>
          FasterOrEqual(t[keys[i]].responseTime, t[keys[j]].responseTime))
    && (forall i, k :: 0 <= i < |keys| && k in Qualifying(t, f) && k !in keys ==>
          FasterOrEqual(t[keys[i]].responseTime, t[k].responseTime))
  }

  /** One key of `s` whose row has the smallest response time. */
  method PickFastest(t: Table, s: set<Key>) returns (k: Key)
    requires s != {} && s <= t.Keys
    ensures k in s && forall j :: j in s ==> FasterOrEqual(t[k].responseTime, t[j].responseTime)
  {
    k :| k in s;
    var todo := s - {k};
    while todo != {}
      invariant todo <= s && k in s
      invariant forall j :: j in s - todo ==> FasterOrEqual(t[k].responseTime, t[j].responseTime)
      decreases todo
    {
      var j :| j in todo;
      if !FasterOrEqual(t[k].responseTime, t[j].responseTime) {
        k := j;
      }
      todo := todo - {j};
    }
  }

  /** The engine's evaluation of an ordered, limited query: take the fastest admitted
      row that is not yet taken, until `limit` rows are taken or none is left. */
  method SelectOrdered(t: Table, f: Filter, limit: nat) returns (keys: seq<Key>)
    ensures IsOrderedSelection(t, f, limit, keys)
  {
    var remaining := Qualifying(t, f);
    keys := [];
    while |keys| < limit && remaining != {}
      invariant remaining <= Qualifying(t, f)
      invariant forall k :: k in Qualifying(t, f) ==> (k in remaining <==> k !in keys)
      invariant |keys| <= limit && Distinct(keys)
      invariant forall i :: 0 <= i < |keys| ==> keys[i] in Qualifying(t, f)
      invariant forall i, j :: 0 <= i < j < |keys| ==>
                  FasterOrEqual(t[keys[i]].responseTime, t[keys[j]].responseTime)
      invariant forall i, k :: 0 <= i < |keys| && k in remaining ==>
                  FasterOrEqual(t[keys[i]].responseTime, t[k].responseTime)
      decreases limit - |keys|
    {
      var k := PickFastest(t, remaining);
      keys := keys + [k];
      remaining := remaining - {k};
    }
  }

  /** The engine's evaluation of an unordered, limited query: admitted rows in an
      unspecified order. */
  method SelectAny(t: Table, f: Filter, limit: nat) returns (keys: seq<Key>)
    ensures IsSelection(t, f, limit, keys)
  {
    var remaining := Qualifying(t, f);
    keys := [];
    while |keys| < limit && remaining != {}
      invariant remaining <= Qualifying(t, f)
      invariant forall k :: k in Qualifying(t, f) ==> (k in remaining <==> k !in keys)
      invariant |keys| <= limit && Distinct(keys)
      invariant forall i :: 0 <= i < |keys| ==> keys[i] in Qualifying(t, f)
      decreases limit - |keys|
    {
      var k :| k in remaining;
      keys := keys + [k];
      remaining := remaining - {k};
    }
  }

  /** The dictionary `get_working_proxy` and `get_working_proxies` build from a row. */
  datatype CheckedProxy = CheckedProxy(
    ip: string,
    port: int,
    protocol: string,
    country: Option<string>,
    responseTime: Option<nat>,
    lastCheck: Option<int>,
    url: string)

  /** The dictionary `get_random_working_proxy` and `get_multiple_working_proxies` build. */
  datatype CollectedProxy = CollectedProxy(
    url: string,
    ip: string,
    port: int,
    protocol: string,
    responseTime: Option<nat>,
    collectionDate: int)

  /** The row as `get_working_proxy` returns it: every column it selects copied from
      the row, and the URL built from the row's protocol and the key. */
  function CheckedView(k: Key, row: Row): (v: CheckedProxy)
    ensures Key(v.ip, v.port) == k && v.protocol == row.protocol
    ensures v.country == row.country && v.responseTime == row.responseTime && v.lastCheck == row.lastCheck
    ensures v.url == FormatUrl(row.protocol, k.ip, k.port)
  {
    CheckedProxy(k.ip, k.port, row.protocol, row.country, row.responseTime, row.lastCheck,
                 FormatUrl(row.protocol, k.ip, k.port))
  }

  /** The row as `get_random_working_proxy` returns it: every column it selects
      copied from the row, and the URL built from the row's protocol and the key. */
  function CollectedView(k: Key, row: Row): (v: CollectedProxy)
    ensures Key(v.ip, v.port) == k && v.protocol == row.protocol
    ensures v.responseTime == row.responseTime && v.collectionDate == row.collectionDate
    ensures v.url == FormatUrl(row.protocol, k.ip, k.port)
  {
    CollectedProxy(FormatUrl(row.protocol, k.ip, k.port), k.ip, k.port, row.protocol,
                   row.responseTime, row.collectionDate)
  }

  function CheckedKeys(vs: seq<CheckedProxy>): (keys: seq<Key>)
    ensures |keys| == |vs| && forall i :: 0 <= i < |vs| ==> keys[i] == Key(vs[i].ip, vs[i].port)
  {
    seq(|vs|, i requires 0 <= i < |vs| => Key(vs[i].ip, vs[i].port))
  }

  function CollectedKeys(vs: seq<CollectedProxy>): (keys: seq<Key>)
    ensures |keys| == |vs| && forall i :: 0 <= i < |vs| ==> keys[i] == Key(vs[i].ip, vs[i].port)
  {
    seq(|vs|, i requires 0 <= i < |vs| => Key(vs[i].ip, vs[i].port))
  }

  /** The counts `get_statistics` reports. */
  datatype Statistics = Statistics(total: nat, working: nat, failed: nat, unchecked: nat, outdated: nat)

  function WithStatus(t: Table, s: Status): set<Key>
  {
    set k | k in t && t[k].status == s
  }

  /** `COUNT(*)` and the `SUM(CASE ...)` columns of `get_statistics`; the average
      latency and the date extremes are not modelled. The status counts partition
      the total, and an empty table reports zeros. */
  function Stats(t: Table): (s: Statistics)
    ensures s.total == |t| && s.outdated == |set k | k in t && t[k].isOutdated|
    ensures s.working == |WithStatus(t, Working)| && s.failed == |WithStatus(t, Failed)|
    ensures s.unchecked == |WithStatus(t, Unchecked)|
    ensures s.total == s.working + s.failed + s.unchecked
    ensures s.outdated <= s.total
    ensures t == map[] ==> s == Statistics(0, 0, 0, 0, 0)
  {
    StatusCountsPartition(t);
    OutdatedWithinTotal(t);
    Statistics(|t|, |WithStatus(t, Working)|, |WithStatus(t, Failed)|, |WithStatus(t, Unchecked)|,
               |set k | k in t && t[k].isOutdated|)
  }

  /** Every row has exactly one of the three statuses. */
  lemma StatusCountsPartition(t: Table)
    ensures |WithStatus(t, Working)| + |WithStatus(t, Failed)| + |WithStatus(t, Unchecked)| == |t|
  {
    var w, f, u := WithStatus(t, Working), WithStatus(t, Failed), WithStatus(t, Unchecked);
    assert w + f + u == t.Keys;
    assert w * f == {};
    assert |w + f| == |w| + |f|;
    assert (w + f) * u == {};
    assert |w + f + u| == |w + f| + |u|;
  }

  lemma OutdatedWithinTotal(t: Table)
    ensures |set k | k in t && t[k].isOutdated| <= |t|
  {
    var o := set k | k in t && t[k].isOutdated;
    assert o <= t.Keys;
    assert |t.Keys - o| + |o| == |t.Keys|;
  }

  class ProxyManager {
    var proxies: Table

    /** Opening the database: `CREATE TABLE IF NOT EXISTS` keeps whatever rows exist. */
    constructor (existing: Table)
      ensures proxies == existing
    {
      proxies := existing;
    }

    /** `add_proxy`: upserts the key; the collection date defaults to `now`. */
    method AddProxy(ip: string, port: int, now: int, protocol: string := "http",
                    collectionDate: Option<int> := None)
      modifies this
      ensures proxies == Upsert(old(proxies), Key(ip, port), protocol, collectionDate.GetOr(now))
    {
      proxies := Upsert(proxies, Key(ip, port), protocol, collectionDate.GetOr(now));
    }

    /** `mark_all_outdated`. */
    method MarkAllOutdated()
      modifies this
      ensures proxies == AllOutdated(old(proxies))
    {
      proxies := AllOutdated(proxies);
    }

    /** `needs_update`: fewer than ten working, current rows collected within the window. */
    method NeedsUpdate(now: int, maxAgeHours: int := 24) returns (b: bool)
      ensures b <==> |Qualifying(proxies, CollectedAfter(now - maxAgeHours * SecondsPerHour))| < MinFreshPool
    {
      var minDate := now - maxAgeHours * SecondsPerHour;
      var count := |Qualifying(proxies, CollectedAfter(minDate))|;
      b := count < MinFreshPool;
    }

    /** `get_working_proxy`: `None` exactly when no working, current row was checked within
        the window; otherwise the fastest such row. */
    method GetWorkingProxy(now: int, maxAgeHours: int := 24) returns (r: Option<CheckedProxy>)
      ensures var q := Qualifying(proxies, CheckedAfter(now - maxAgeHours * SecondsPerHour));
              && (r.None? <==> q == {})
              && (r.Some? ==> var k := Key(r.value.ip, r.value.port);
                    && k in q && r.value == CheckedView(k, proxies[k])
                    && forall j :: j in q ==> FasterOrEqual(proxies[k].responseTime, proxies[j].responseTime))
    {
      var f := CheckedAfter(now - maxAgeHours * SecondsPerHour);
      var keys := SelectOrdered(proxies, f, 1);
      if |keys| == 0 {
        r := None;
      } else {
        var k := keys[0];
        r := Some(CheckedView(k, proxies[k]));
        assert forall j :: j in Qualifying(proxies, f) && j != k ==> j !in keys;
      }
    }

    /** `get_working_proxies`: up to `limit` working, current rows checked within the
        window, fastest first. */
    method GetWorkingProxies(now: int, limit: nat := 10, maxAgeHours: int := 24)
      returns (r: seq<CheckedProxy>)
      ensures IsOrderedSelection(proxies, CheckedAfter(now - maxAgeHours * SecondsPerHour), limit, CheckedKeys(r))
      ensures forall i :: 0 <= i < |r| ==>
                Key(r[i].ip, r[i].port) in proxies
                && r[i] == CheckedView(Key(r[i].ip, r[i].port), proxies[Key(r[i].ip, r[i].port)])
    {
      var f := CheckedAfter(now - maxAgeHours * SecondsPerHour);
      var t := proxies;
      var keys := SelectOrdered(t, f, limit);
      r := seq(|keys|, i requires 0 <= i < |keys| && keys[i] in t => CheckedView(keys[i], t[keys[i]]));
      assert CheckedKeys(r) == keys;
    }

    /** `get_random_working_proxy`: `None` exactly when no working, current row was
        collected within the window; otherwise any such row (`ORDER BY RANDOM()`). */
    method GetRandomWorkingProxy(now: int, maxAgeHours: int := 24) returns (r: Option<CollectedProxy>)
      ensures var q := Qualifying(proxies, CollectedAfter(now - maxAgeHours * SecondsPerHour));
              && (r.None? <==> q == {})
              && (r.Some? ==> var k := Key(r.value.ip, r.value.port);
                    k in q && r.value == CollectedView(k, proxies[k]))
    {
      var q := Qualifying(proxies, CollectedAfter(now - maxAgeHours * SecondsPerHour));
      if q == {} {
        r := None;
      } else {
        var k :| k in q;
        r := Some(CollectedView(k, proxies[k]));
      }
    }

    /** `mark_proxy_as_failed`: the URL parse, then the update of the matching row.
        Returns the `IndexError` when no ':' follows the last "://", and then changes nothing. */
    method MarkProxyAsFailed(proxyUrl: string, now: int) returns (raised: Option<Error>)
      modifies this
      ensures raised.Some? <==> ParseProxyUrl(proxyUrl).Failure?
      ensures raised.Some? ==> raised.value == IndexError && proxies == old(proxies)
      ensures raised.None? ==> proxies == MarkFailed(old(proxies), ParseProxyUrl(proxyUrl).value, now)
    {
      var parsed := ParseProxyUrl(proxyUrl);
      if parsed.Failure? {
        raised := Some(parsed.error);
      } else {
        proxies := MarkFailed(proxies, parsed.value, now);
        raised := None;
      }
    }

    /** `get_multiple_working_proxies`: up to `limit` working, current rows collected within
        the window, fastest first, each turned into its dictionary. */
    method GetMultipleWorkingProxies(now: int, limit: nat := 100, maxAgeHours: int := 24)
      returns (r: seq<CollectedProxy>)
      ensures IsOrderedSelection(proxies, CollectedAfter(now - maxAgeHours * SecondsPerHour), limit, CollectedKeys(r))
      ensures forall i :: 0 <= i < |r| ==>
                Key(r[i].ip, r[i].port) in proxies
                && r[i] == CollectedView(Key(r[i].ip, r[i].port), proxies[Key(r[i].ip, r[i].port)])
    {
      var f := CollectedAfter(now - maxAgeHours * SecondsPerHour);
      var keys := SelectOrdered(proxies, f, limit);
      r := [];
      var i := 0;
      while i < |keys|
        invariant 0 <= i <= |keys| && |r| == i
        invariant forall j :: 0 <= j < i ==> r[j] == CollectedView(keys[j], proxies[keys[j]])
      {
        r := r + [CollectedView(keys[i], proxies[keys[i]])];
        i := i + 1;
      }
      assert CollectedKeys(r) == keys;
    }

    /** `cleanup_old_data`: deletes the rows expired `maxAgeDays` days before `now`. */
    method CleanupOldData(now: int, maxAgeDays: int := 7)
      modifies this
      ensures proxies == Cleanup(old(proxies), now - maxAgeDays * SecondsPerDay)
    {
      proxies := Cleanup(proxies, now - maxAgeDays * SecondsPerDay);
    }

    /** `get_statistics`, counts only. */
    method GetStatistics() returns (s: Statistics)
      ensures s == Stats(proxies)
    {
      s := Stats(proxies);
    }
  }
}
