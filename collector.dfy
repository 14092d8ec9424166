/**
  The harvester of `proxy_manager/collector.py`. `collect_from_url` turns one
  HTTP reply into `{ip, port, protocol}` entries; `collect_all` concatenates the
  entries of every source in order, drops repeated `ip:port` strings keeping the
  first, and upserts the rest into the store with the harvest time as
  collection date. A line that does not split into exactly two pieces raises
  inside the parse loop and the handler returns what was collected before it; a
  port that `int()` rejects raises out of `collect_all`, after the entries
  before it are saved.
*/
module Collector {
  import opened Text
  import opened Models
  import opened Store
  import StoreProperties

  /** One harvested entry, the `{'ip': ..., 'port': ..., 'protocol': ...}` dict; the
      port is still text. */
  datatype Harvested = Harvested(ip: string, port: string, protocol: string)

  /** What one GET gives the collector: an exception (connection error, timeout,
      undecodable body), or a reply with its status and the lines of its body. */
  datatype Response = TransportError | Reply(status: int, lines: seq<string>)

  /** The plain-text sources, fetched in this order. */
  const TextSources: seq<string> := [
    "https://raw.githubusercontent.com/TheSpeedX/PROXY-List/master/http.txt",
    "https://raw.githubusercontent.com/ShiftyTR/Proxy-List/master/http.txt",
    "https://raw.githubusercontent.com/monosans/proxy-list/main/proxies/http.txt",
    "https://raw.githubusercontent.com/mertguvencli/http-proxy-list/main/proxy-list/data.txt",
    "https://raw.githubusercontent.com/RX4096/proxy-list/main/online/http.txt",
    "https://raw.githubusercontent.com/prxchk/proxy-list/main/http.txt",
    "https://raw.githubusercontent.com/sunny9577/proxy-scraper/master/proxies.txt"
  ]

  /** The API sources, fetched after the text sources. */
  const ApiSources: seq<string> := [
    "https://proxylist.geonode.com/api/proxy-list?limit=500&page=1&sort_by=lastChecked&sort_type=desc&protocols=http%2Chttps",
    "https://api.proxyscrape.com/v2/?request=displayproxies&protocol=http&timeout=10000&country=all&ssl=all&anonymity=all"
  ]

  /** The `f"{ip}:{port}"` string the de-duplication compares. */
  function AddressKey(h: Harvested): string
  {
    h.ip + ":" + h.port
  }

  /** What one line of a text list gives. */
  datatype LineParse = Skip | Entry(entry: Harvested) | Malformed

  /** One line of a text list: without ':' it is skipped; otherwise the stripped
      line is cut at every ':' and must give exactly two pieces, the ip and the
      port, which rejoined are the stripped line; any other count is the
      `ValueError` of the unpacking. */
  function ParseLine(line: string): (r: LineParse)
    ensures r.Skip? <==> ':' !in line
    ensures r.Malformed? <==> ':' in line && |Split(Strip(line), ":")| != 2
    ensures r.Entry? ==> && ':' !in r.entry.ip && ':' !in r.entry.port && r.entry.protocol == "http"
                         && r.entry.ip + ":" + r.entry.port == Strip(line)
  {
    if ':' !in line then Skip
    else
      var pieces := Split(Strip(line), ":");
      SplitPiecesAvoidSeparator(Strip(line), ':');
      JoinSplit(Strip(line), ":");
      if |pieces| != 2 then Malformed
      else
        assert Join(pieces, ":") == pieces[0] + ":" + Join(pieces[1..], ":");
        Entry(Harvested(pieces[0], pieces[1], "http"))
  }

  /** The text-list parse of a reply body, line by line; a malformed line ends the
      parse with the entries found before it. */
  function ParseLines(lines: seq<string>): (r: seq<Harvested>)
    ensures |r| <= |lines|
    ensures forall i :: 0 <= i < |r| ==> ':' !in r[i].ip && ':' !in r[i].port && r[i].protocol == "http"
    decreases |lines|
  {
    if lines == [] then []
    else
      match ParseLine(lines[0])
      case Skip => ParseLines(lines[1..])
      case Malformed => []
      case Entry(h) => [h] + ParseLines(lines[1..])
  }

  /** A line `ip:port` with colon-free parts and no whitespace at either end becomes
      one entry with protocol "http". */
  lemma ParseWellFormedLine(ip: string, port: string)
    requires ':' !in ip && ':' !in port
    requires ip != [] && !IsSpace(ip[0]) && port != [] && !IsSpace(port[|port| - 1])
    ensures ParseLine(ip + ":" + port) == Entry(Harvested(ip, port, "http"))
  {
    var line := ip + ":" + port;
    assert line[0] == ip[0] && line[|line| - 1] == port[|port| - 1];
    StripUnpadded(line);
    SplitPair(ip, port);
    assert line[|ip|] == ':';
  }

  /** `strip()` removes a trailing unit separator, so "1.2.3.4:80\x1f" becomes the
      entry ("1.2.3.4", "80"), whose port `int()` accepts. */
  lemma TrailingSeparatorStripped()
    ensures ParseLine("1.2.3.4:80\U{001F}") == Entry(Harvested("1.2.3.4", "80", "http"))
    ensures ParseInteger("80") == Some(80)
  {
    var line := "1.2.3.4:80\U{001F}";
    var clean := "1.2.3.4:80";
    assert LStrip(line) == line;
    assert line[..|line| - 1] == clean;
    StripUnpadded(clean);
    assert Strip(line) == clean;
    assert clean == "1.2.3.4" + ":" + "80";
    SplitPair("1.2.3.4", "80");
    ParseIntegerExamples();
  }

  /** A line without ':' is ignored wherever it stands. */
  lemma {:induction false} ParseSkipsColonFreeLine(pre: seq<string>, line: string, post: seq<string>)
    requires ':' !in line
    ensures ParseLines(pre + [line] + post) == ParseLines(pre + post)
    decreases |pre|
  {
    if pre == [] {
      assert pre + [line] + post == [line] + post && pre + post == post;
      assert ([line] + post)[0] == line && ([line] + post)[1..] == post;
    } else {
      ParseSkipsColonFreeLine(pre[1..], line, post);
      assert (pre + [line] + post)[0] == pre[0] && (pre + post)[0] == pre[0];
      assert (pre + [line] + post)[1..] == pre[1..] + [line] + post;
      assert (pre + post)[1..] == pre[1..] + post;
    }
  }

  /** A malformed line (a ':' but not exactly two pieces) ends the parse: nothing
      after it is collected, whatever follows. */
  lemma {:induction false} ParseStopsAtMalformedLine(pre: seq<string>, line: string, post: seq<string>)
    requires ParseLine(line).Malformed?
    ensures ParseLines(pre + [line] + post) == ParseLines(pre)
    decreases |pre|
  {
    if pre != [] {
      ParseStopsAtMalformedLine(pre[1..], line, post);
      assert (pre + [line] + post)[0] == pre[0];
      assert (pre + [line] + post)[1..] == pre[1..] + [line] + post;
    }
  }

  /** A body of two well-formed lines gives their two entries, in order (the
      collector's reply test, with "1.2.3.4:8080" and "5.6.7.8:3128"). */
  lemma TwoLineReply(ip1: string, port1: string, ip2: string, port2: string)
    requires ':' !in ip1 && ':' !in port1 && ':' !in ip2 && ':' !in port2
    requires ip1 != [] && !IsSpace(ip1[0]) && port1 != [] && !IsSpace(port1[|port1| - 1])
    requires ip2 != [] && !IsSpace(ip2[0]) && port2 != [] && !IsSpace(port2[|port2| - 1])
    ensures ParseLines([ip1 + ":" + port1, ip2 + ":" + port2])
            == [Harvested(ip1, port1, "http"), Harvested(ip2, port2, "http")]
  {
    var lines := [ip1 + ":" + port1, ip2 + ":" + port2];
    ParseWellFormedLine(ip1, port1);
    ParseWellFormedLine(ip2, port2);
    assert lines[1..][0] == lines[1];
    assert lines[1..][1..] == [];
  }

  /** The `ip:port` strings of a list of entries. */
  function KeysOf(xs: seq<Harvested>): set<string>
  {
    set i | 0 <= i < |xs| :: AddressKey(xs[i])
  }

  lemma KeysOfAppend(xs: seq<Harvested>, e: Harvested)
    ensures KeysOf(xs + [e]) == KeysOf(xs) + {AddressKey(e)}
  {
    var ys := xs + [e];
    forall k | k in KeysOf(ys) ensures k in KeysOf(xs) + {AddressKey(e)} {
      var i :| 0 <= i < |ys| && AddressKey(ys[i]) == k;
      if i < |xs| {
        assert ys[i] == xs[i];
      }
    }
    forall k | k in KeysOf(xs) ensures k in KeysOf(ys) {
      var i :| 0 <= i < |xs| && AddressKey(xs[i]) == k;
      assert ys[i] == xs[i];
    }
    assert AddressKey(ys[|xs|]) == AddressKey(e);
  }

  /** The de-duplication loop of `collect_all`: an entry is kept when no earlier kept
      entry has the same `ip:port` string. The result has pairwise different strings,
      all the strings of the input, and only entries of the input. */
  function Dedup(xs: seq<Harvested>): (r: seq<Harvested>)
    ensures |r| <= |xs|
    ensures KeysOf(r) == KeysOf(xs)
    ensures forall i, j :: 0 <= i < j < |r| ==> AddressKey(r[i]) != AddressKey(r[j])
    ensures forall i :: 0 <= i < |r| ==> r[i] in xs
    decreases |xs|
  {
    if xs == [] then []
    else
      var front := xs[..|xs| - 1];
      var last := xs[|xs| - 1];
      var d := Dedup(front);
      assert xs == front + [last];
      KeysOfAppend(front, last);
      KeysOfAppend(d, last);
      if AddressKey(last) in KeysOf(d) then d
      else
        assert AddressKey((d + [last])[|d|]) == AddressKey(last);
        d + [last]
  }

  /** The test with a repeated entry: `[a, a, b]` keeps `[a, b]`. */
  lemma DedupExample(a: Harvested, b: Harvested)
    requires AddressKey(a) != AddressKey(b)
    ensures Dedup([a, a, b]) == [a, b]
  {
    assert [a, a, b][..2] == [a, a];
    assert [a, a][..1] == [a];
    assert [a][..0] == [];
    KeysOfAppend([], a);
    KeysOfAppend([a], a);
    assert [a] + [a] == [a, a];
  }

  /** Entry `i` is the first with its `ip:port` string. */
  predicate IsFirstOccurrence(xs: seq<Harvested>, i: nat)
    requires i < |xs|
  {
    forall j :: 0 <= j < i ==> AddressKey(xs[j]) != AddressKey(xs[i])
  }

  /** Reference definition: the entries among the first `n` that are first
      occurrences, in their order in `xs`. */
  function FirstOccurrences(xs: seq<Harvested>, n: nat): seq<Harvested>
    requires n <= |xs|
  {
    if n == 0 then []
    else FirstOccurrences(xs, n - 1) + (if IsFirstOccurrence(xs, n - 1) then [xs[n - 1]] else [])
  }

  /** The de-duplication keeps exactly the first occurrence of each `ip:port`
      string, in the order of the input. */
  lemma DedupIsFirstOccurrences(xs: seq<Harvested>)
    ensures Dedup(xs) == FirstOccurrences(xs, |xs|)
  {
    DedupPrefix(xs, |xs|);
    assert xs[..|xs|] == xs;
  }

  lemma {:induction false} DedupPrefix(xs: seq<Harvested>, n: nat)
    requires n <= |xs|
    ensures Dedup(xs[..n]) == FirstOccurrences(xs, n)
    decreases n
  {
    if n > 0 {
      DedupPrefix(xs, n - 1);
      var front := xs[..n - 1];
      assert xs[..n][..n - 1] == front && xs[..n][n - 1] == xs[n - 1];
      var k := AddressKey(xs[n - 1]);
      assert KeysOf(Dedup(front)) == KeysOf(front);
      if IsFirstOccurrence(xs, n - 1) {
        forall i | 0 <= i < |front| ensures AddressKey(front[i]) != k {
          assert front[i] == xs[i];
        }
        assert k !in KeysOf(front);
      } else {
        var j :| 0 <= j < n - 1 && AddressKey(xs[j]) == k;
        assert front[j] == xs[j];
        assert k in KeysOf(front);
      }
    }
  }

  /** `int()` accepts the port of every entry. */
  predicate PortsParse(entries: seq<Harvested>)
  {
    forall i :: 0 <= i < |entries| ==> ParseInteger(entries[i].port).Some?
  }

  /** The stored keys the entries become; an entry whose port `int()` rejects
      becomes none. */
  function EntryKeys(entries: seq<Harvested>): set<Key>
    decreases |entries|
  {
    if entries == [] then {}
    else
      var here := match ParseInteger(entries[0].port)
                  case None => {}
                  case Some(port) => {Key(entries[0].ip, port)};
      here + EntryKeys(entries[1..])
  }

  /** The table after the save loop, and the exception that ends it, if any. */
  datatype SaveOutcome = SaveOutcome(table: Table, raised: Option<Error>)

  /** The save loop of `collect_all`: each entry in turn is upserted with
      `int(port)` and the harvest time; the first port `int()` rejects raises
      `ValueError` and leaves the entries after it unsaved. It raises exactly when
      some port is rejected, and never loses a row. */
  function SaveEntries(t: Table, entries: seq<Harvested>, date: int): (r: SaveOutcome)
    ensures r.raised.Some? ==> r.raised.value == ValueError
    ensures r.raised.None? <==> PortsParse(entries)
    ensures t.Keys <= r.table.Keys
    decreases |entries|
  {
    if entries == [] then SaveOutcome(t, None)
    else
      match ParseInteger(entries[0].port)
      case None => SaveOutcome(t, Some(ValueError))
      case Some(port) =>
        assert PortsParse(entries) <==> PortsParse(entries[1..]) by {
          assert forall i :: 0 <= i < |entries| - 1 ==> entries[1..][i] == entries[i + 1];
        }
        SaveEntries(Upsert(t, Key(entries[0].ip, port), entries[0].protocol, date), entries[1..], date)
  }

  /** The entry names stored key `k`: same ip, and `int()` of its port is `k`'s port. */
  predicate NamesKey(h: Harvested, k: Key)
  {
    h.ip == k.ip && ParseInteger(h.port) == Some(k.port)
  }

  /** The protocol of the last entry that names `k`; there is one exactly when `k`
      is among the entries' keys. */
  function LastProtocol(entries: seq<Harvested>, k: Key): (r: Option<string>)
    ensures r.Some? <==> k in EntryKeys(entries)
    decreases |entries|
  {
    if entries == [] then None
    else
      var later := LastProtocol(entries[1..], k);
      if later.Some? then later
      else if NamesKey(entries[0], k) then Some(entries[0].protocol)
      else None
  }

  /** `LastProtocol` is the protocol of an entry naming `k` that no later entry
      names `k` after. */
  lemma {:induction false} LastProtocolCharacterised(entries: seq<Harvested>, k: Key)
    requires k in EntryKeys(entries)
    ensures exists i :: && 0 <= i < |entries| && NamesKey(entries[i], k)
                        && LastProtocol(entries, k) == Some(entries[i].protocol)
                        && forall j :: i < j < |entries| ==> !NamesKey(entries[j], k)
    decreases |entries|
  {
    var rest := entries[1..];
    if k in EntryKeys(rest) {
      LastProtocolCharacterised(rest, k);
      var i :| && 0 <= i < |rest| && NamesKey(rest[i], k)
               && LastProtocol(rest, k) == Some(rest[i].protocol)
               && forall j :: i < j < |rest| ==> !NamesKey(rest[j], k);
      assert entries[i + 1] == rest[i];
      forall j | i + 1 < j < |entries| ensures !NamesKey(entries[j], k) {
        assert entries[j] == rest[j - 1];
      }
    } else {
      assert LastProtocol(rest, k) == None;
      forall j | 0 < j < |entries| ensures !NamesKey(entries[j], k) {
        assert entries[j] == rest[j - 1];
        if NamesKey(entries[j], k) {
          NamesKeyInEntryKeys(rest, j - 1, k);
        }
      }
      assert NamesKey(entries[0], k);
    }
  }

  /** An entry naming `k` puts `k` among the entries' keys. */
  lemma {:induction false} NamesKeyInEntryKeys(entries: seq<Harvested>, i: nat, k: Key)
    requires i < |entries| && NamesKey(entries[i], k)
    ensures k in EntryKeys(entries)
    decreases i
  {
    if i > 0 {
      assert entries[1..][i - 1] == entries[i];
      NamesKeyInEntryKeys(entries[1..], i - 1, k);
    }
  }

  /** Without an exception, the save adds exactly the entries' keys and leaves every
      other row as it was. Each saved key's row is what one upsert with the protocol
      of its last entry gives: stamped with the harvest time and visible again, a new
      row otherwise empty, an existing one keeping its verdict, latency, last check,
      country and anonymity. */
  lemma SaveEntriesEffect(t: Table, entries: seq<Harvested>, date: int)
    requires PortsParse(entries)
    ensures var r := SaveEntries(t, entries, date).table;
            && r.Keys == t.Keys + EntryKeys(entries)
            && (forall k :: k in EntryKeys(entries) ==>
                  r[k] == Upsert(t, k, LastProtocol(entries, k).value, date)[k])
            && (forall k :: k in EntryKeys(entries) ==>
                  r[k].protocol == LastProtocol(entries, k).value && r[k].collectionDate == date && !r[k].isOutdated)
            && (forall k :: k in EntryKeys(entries) && k !in t ==> r[k] == NewRow(LastProtocol(entries, k).value, date))
            && (forall k :: k in t ==>
                  && r[k].status == t[k].status && r[k].responseTime == t[k].responseTime
                  && r[k].lastCheck == t[k].lastCheck && r[k].country == t[k].country
                  && r[k].anonymity == t[k].anonymity)
            && (forall k :: k in t && k !in EntryKeys(entries) ==> r[k] == t[k])
  {
    SaveEntriesKeys(t, entries, date);
    SaveEntriesRows(t, entries, date);
    var r := SaveEntries(t, entries, date).table;
    forall k | k in EntryKeys(entries)
      ensures r[k].protocol == LastProtocol(entries, k).value && r[k].collectionDate == date && !r[k].isOutdated
      ensures k !in t ==> r[k] == NewRow(LastProtocol(entries, k).value, date)
      ensures k in t ==> && r[k].status == t[k].status && r[k].responseTime == t[k].responseTime
                         && r[k].lastCheck == t[k].lastCheck && r[k].country == t[k].country
                         && r[k].anonymity == t[k].anonymity
    {
      var u := Upsert(t, k, LastProtocol(entries, k).value, date);
    }
  }

  /** The key set part of `SaveEntriesEffect`. */
  lemma {:induction false} SaveEntriesKeys(t: Table, entries: seq<Harvested>, date: int)
    requires PortsParse(entries)
    ensures SaveEntries(t, entries, date).table.Keys == t.Keys + EntryKeys(entries)
    decreases |entries|
  {
    if entries != [] {
      var port := ParseInteger(entries[0].port).value;
      var k := Key(entries[0].ip, port);
      var u := Upsert(t, k, entries[0].protocol, date);
      PortsParseTail(entries);
      SaveEntriesKeys(u, entries[1..], date);
      SaveEntriesHead(t, entries, date, port);
    }
  }

  /** One step of the save loop, for an entry whose port parses. */
  lemma SaveEntriesHead(t: Table, entries: seq<Harvested>, date: int, port: int)
    requires entries != [] && ParseInteger(entries[0].port) == Some(port)
    ensures var k := Key(entries[0].ip, port);
            && EntryKeys(entries) == {k} + EntryKeys(entries[1..])
            && SaveEntries(t, entries, date) == SaveEntries(Upsert(t, k, entries[0].protocol, date), entries[1..], date)
  {
  }

  /** The row part of `SaveEntriesEffect`. */
  lemma {:induction false} SaveEntriesRows(t: Table, entries: seq<Harvested>, date: int)
    requires PortsParse(entries)
    ensures var r := SaveEntries(t, entries, date).table;
            && (forall k :: k in EntryKeys(entries) ==>
                  k in r && r[k] == Upsert(t, k, LastProtocol(entries, k).value, date)[k])
            && (forall k :: k in t && k !in EntryKeys(entries) ==> r[k] == t[k])
    decreases |entries|
  {
    if entries != [] {
      var e := entries[0];
      var port := ParseInteger(e.port).value;
      var k0 := Key(e.ip, port);
      var u := Upsert(t, k0, e.protocol, date);
      var rest := entries[1..];
      PortsParseTail(entries);
      SaveEntriesHead(t, entries, date, port);
      SaveEntriesRows(u, rest, date);
      var r := SaveEntries(t, entries, date).table;
      forall k | k in EntryKeys(entries)
        ensures k in r && r[k] == Upsert(t, k, LastProtocol(entries, k).value, date)[k]
      {
        if k in EntryKeys(rest) {
          assert LastProtocol(entries, k) == LastProtocol(rest, k);
          UpsertThenUpsert(t, k0, e.protocol, k, LastProtocol(rest, k).value, date);
        } else {
          assert k == k0 && NamesKey(e, k);
          assert LastProtocol(entries, k) == Some(e.protocol);
        }
      }
      forall k | k in t && k !in EntryKeys(entries) ensures r[k] == t[k] {
        assert k != k0 && k in u;
      }
    }
  }

  /** After an upsert of `k0`, a second upsert of `k` leaves `k`'s row as an upsert of
      `k` alone would. */
  lemma UpsertThenUpsert(t: Table, k0: Key, p0: string, k: Key, p: string, date: int)
    ensures Upsert(Upsert(t, k0, p0, date), k, p, date)[k] == Upsert(t, k, p, date)[k]
  {
  }

  /** Every port of the entries after the first parses too. */
  lemma PortsParseTail(entries: seq<Harvested>)
    requires entries != [] && PortsParse(entries)
    ensures PortsParse(entries[1..])
  {
    assert forall i :: 0 <= i < |entries| - 1 ==> entries[1..][i] == entries[i + 1];
  }

  /** A rejected port stops the save there: the table is the one the entries before
      it produce, and the exception is `ValueError`. */
  lemma {:induction false} SaveStopsAtBadPort(t: Table, pre: seq<Harvested>, bad: Harvested, post: seq<Harvested>, date: int)
    requires forall i :: 0 <= i < |pre| ==> ParseInteger(pre[i].port).Some?
    requires ParseInteger(bad.port).None?
    ensures SaveEntries(t, pre + [bad] + post, date) == SaveOutcome(SaveEntries(t, pre, date).table, Some(ValueError))
    decreases |pre|
  {
    if pre != [] {
      var port := ParseInteger(pre[0].port).value;
      var u := Upsert(t, Key(pre[0].ip, port), pre[0].protocol, date);
      assert (pre + [bad] + post)[0] == pre[0];
      assert (pre + [bad] + post)[1..] == pre[1..] + [bad] + post;
      SaveStopsAtBadPort(u, pre[1..], bad, post, date);
    }
  }

  /** Two entries for one ip whose port texts differ but denote the same number
      both survive the de-duplication, which compares strings, yet the store ends
      up with a single new row for them. */
  lemma SameNumberDifferentText(t: Table, ip: string, p1: string, p2: string, n: int, protocol: string, date: int)
    requires p1 != p2 && ParseInteger(p1) == Some(n) && ParseInteger(p2) == Some(n)
    requires Key(ip, n) !in t
    ensures var xs := [Harvested(ip, p1, protocol), Harvested(ip, p2, protocol)];
            var out := SaveEntries(t, Dedup(xs), date);
            && Dedup(xs) == xs
            && out.raised.None?
            && out.table == Upsert(t, Key(ip, n), protocol, date)
            && |out.table| == |t| + 1
  {
    var a := Harvested(ip, p1, protocol);
    var b := Harvested(ip, p2, protocol);
    assert AddressKey(a)[|ip| + 1..] == p1 && AddressKey(b)[|ip| + 1..] == p2;
    DedupDistinctPair(a, b);
    SaveSameKeyTwice(t, a, b, n, date);
  }

  /** Two entries with different address texts both survive deduplication. */
  lemma DedupDistinctPair(a: Harvested, b: Harvested)
    requires AddressKey(a) != AddressKey(b)
    ensures Dedup([a, b]) == [a, b]
  {
    var xs := [a, b];
    assert xs[..1] == [a] && xs[..1][..0] == [];
    KeysOfAppend([], a);
  }

  /** Two entries naming the same stored key are one upsert. */
  lemma SaveSameKeyTwice(t: Table, a: Harvested, b: Harvested, n: int, date: int)
    requires ParseInteger(a.port) == Some(n) && ParseInteger(b.port) == Some(n)
    requires a.ip == b.ip && a.protocol == b.protocol
    ensures SaveEntries(t, [a, b], date) == SaveOutcome(Upsert(t, Key(a.ip, n), a.protocol, date), None)
  {
    var k := Key(a.ip, n);
    var u := Upsert(t, k, a.protocol, date);
    assert [a, b][1..] == [b] && [b][1..] == [];
    assert SaveEntries(t, [a, b], date) == SaveEntries(u, [b], date);
    assert SaveEntries(u, [b], date) == SaveEntries(Upsert(u, k, a.protocol, date), [], date);
    StoreProperties.UpsertIdempotent(t, k, a.protocol, date);
  }

  /** The instance "080" and "80". */
  lemma LeadingZeroDuplicatesShareRow(t: Table, ip: string, protocol: string, date: int)
    requires Key(ip, 80) !in t
    ensures var xs := [Harvested(ip, "080", protocol), Harvested(ip, "80", protocol)];
            var out := SaveEntries(t, Dedup(xs), date);
            |Dedup(xs)| == 2 && out.table == Upsert(t, Key(ip, 80), protocol, date) && |out.table| == |t| + 1
  {
    ParseIntegerExamples();
    assert "080" != "80";
    SameNumberDifferentText(t, ip, "080", "80", 80, protocol, date);
  }

  /** The harvester: its store and the two source lists of `__init__`. */
  class ProxyCollector {
    const manager: ProxyManager
    const sources: seq<string>
    const apiSources: seq<string>

    constructor (manager: ProxyManager)
      ensures this.manager == manager && sources == TextSources && apiSources == ApiSources
    {
      this.manager := manager;
      sources := TextSources;
      apiSources := ApiSources;
    }

    /** An API source whose URL mentions "geonode" has a JSON body. */
    predicate IsGeoNode(url: string)
    {
      url in apiSources && Contains(url, "geonode")
    }

    /** The entries `collect_from_url` returns for a reply: nothing unless the status
        is 200; the decoder's entries for GeoNode; the text-list parse otherwise. */
    function FromResponse(url: string, response: Response, decode: seq<string> -> seq<Harvested>): seq<Harvested>
    {
      if !response.Reply? || response.status != 200 then []
      else if IsGeoNode(url) then decode(response.lines)
      else ParseLines(response.lines)
    }

    /** The entries of all sources, in source order. */
    function Harvest(urls: seq<string>, fetch: string -> Response, decode: seq<string> -> seq<Harvested>): seq<Harvested>
      decreases |urls|
    {
      if urls == [] then []
      else Harvest(urls[..|urls| - 1], fetch, decode) + FromResponse(urls[|urls| - 1], fetch(urls[|urls| - 1]), decode)
    }

    /** `collect_from_url(url)` for a given reply: an exception or a status other
        than 200 gives no entries; a 200 reply gives its parsed entries, up to the
        first malformed line. */
    method CollectFromUrl(url: string, response: Response, decode: seq<string> -> seq<Harvested>)
      returns (proxies: seq<Harvested>)
      ensures proxies == FromResponse(url, response, decode)
      ensures !response.Reply? || response.status != 200 ==> proxies == []
      ensures response.Reply? && response.status == 200 && !IsGeoNode(url) ==> proxies == ParseLines(response.lines)
    {
      proxies := [];
      if !response.Reply? || response.status != 200 {
        return;
      }
      if IsGeoNode(url) {
        proxies := decode(response.lines);
        return;
      }
      var lines := response.lines;
      var i := 0;
      while i < |lines|
        invariant 0 <= i <= |lines|
        invariant proxies + ParseLines(lines[i..]) == ParseLines(lines)
      {
        assert lines[i..][0] == lines[i] && lines[i..][1..] == lines[i + 1..];
        match ParseLine(lines[i]) {
          case Skip =>
          case Malformed =>
            // the unpacking raises; the handler returns what was collected
            assert proxies + [] == proxies;
            return;
          case Entry(h) =>
            proxies := proxies + [h];
        }
        i := i + 1;
      }
    }

    /** The fetch-and-combine part of `collect_all()`: each source in order, its
        entries appended to the list. */
    method HarvestAll(urls: seq<string>, fetch: string -> Response, decode: seq<string> -> seq<Harvested>)
      returns (all: seq<Harvested>)
      ensures all == Harvest(urls, fetch, decode)
    {
      all := [];
      var i := 0;
      while i < |urls|
        invariant 0 <= i <= |urls|
        invariant all == Harvest(urls[..i], fetch, decode)
      {
        var proxies := CollectFromUrl(urls[i], fetch(urls[i]), decode);
        assert urls[..i + 1][..i] == urls[..i];
        all := all + proxies;
        i := i + 1;
      }
      assert urls[..|urls|] == urls;
    }

    /** The save part of `collect_all()`: `add_proxy(ip, int(port), protocol,
        collection_date=current_time)` for each entry in turn, until `int()`
        raises. */
    method SaveAll(unique: seq<Harvested>, currentTime: int) returns (raised: Option<Error>)
      modifies manager
      ensures var out := SaveEntries(old(manager.proxies), unique, currentTime);
              manager.proxies == out.table && raised == out.raised
    {
      raised := None;
      var j := 0;
      while j < |unique|
        invariant 0 <= j <= |unique|
        invariant SaveEntries(manager.proxies, unique[j..], currentTime)
                  == SaveEntries(old(manager.proxies), unique, currentTime)
      {
        assert unique[j..][0] == unique[j] && unique[j..][1..] == unique[j + 1..];
        var port := ParseInteger(unique[j].port);
        if port.None? {
          raised := Some(ValueError);
          return;
        }
        manager.AddProxy(unique[j].ip, port.value, currentTime, unique[j].protocol, Some(currentTime));
        j := j + 1;
      }
    }

    /** `collect_all()`: every source is fetched in order, the entries are
        concatenated, repeated `ip:port` strings dropped, and the rest saved with
        the harvest time; the result is the `ValueError` of a rejected port, if any. */
    method CollectAll(fetch: string -> Response, decode: seq<string> -> seq<Harvested>, currentTime: int)
      returns (raised: Option<Error>)
      modifies manager
      ensures var out := SaveEntries(old(manager.proxies), Dedup(Harvest(sources + apiSources, fetch, decode)), currentTime);
              manager.proxies == out.table && raised == out.raised
    {
      var all := HarvestAll(sources + apiSources, fetch, decode);
      var unique := Deduplicate(all);
      raised := SaveAll(unique, currentTime);
    }
  }

  /** The de-duplication loop of `collect_all()`, with its `seen` set of `ip:port`
      strings. */
  method Deduplicate(all: seq<Harvested>) returns (unique: seq<Harvested>)
    ensures unique == Dedup(all)
  {
    unique := [];
    var seen: set<string> := {};
    var i := 0;
    while i < |all|
      invariant 0 <= i <= |all|
      invariant unique == Dedup(all[..i]) && seen == KeysOf(unique)
    {
      assert all[..i + 1][..i] == all[..i];
      var key := AddressKey(all[i]);
      if key !in seen {
        KeysOfAppend(unique, all[i]);
        seen := seen + {key};
        unique := unique + [all[i]];
      }
      i := i + 1;
    }
    assert all[..|all|] == all;
  }
}
