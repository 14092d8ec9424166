/**
  The lenient `IP:PORT` text parser shared by the proxy sources
  (`BaseSource.extract_proxies_from_text` in `proxy_manager/sources/base.py`).
  Each line is stripped; a line with one ':' whose right-hand side `int()`
  accepts becomes a value proxy with default fields, kept only when its address
  is public. Bad lines are skipped, never fatal, and the result is a set.
*/
module Sources {
  import opened Text
  import opened Models

  /** What one line contributes: `None` for a line without ':', with more than one
      ':', with a port `int()` rejects (the `ValueError` the loop swallows), or
      with an address that is not public. */
  function LineProxy(line: string, parse: string -> Option<IpAddress>): (r: Option<Proxy>)
    ensures r.Some? ==> && r.value.protocol == "http" && r.value.country == ""
                        && r.value.anonymity == "" && r.value.responseTime == 0
                        && r.value.IsValidPublicIp(parse)
  {
    var stripped := Strip(line);
    if ':' !in stripped then None
    else
      var pieces := Split(stripped, ":");
      if |pieces| != 2 then None
      else
        match ParseInteger(Strip(pieces[1]))
        case None => None
        case Some(port) =>
          var proxy := Proxy(ip := Strip(pieces[0]), port := port);
          if proxy.IsValidPublicIp(parse) then Some(proxy) else None
  }

  /** A line yields `p` exactly when, stripped, it is an ip text and a port text
      joined by its only ':', `p` carries the stripped ip text, `int()` of the
      stripped port text and the default fields, and its address is public. */
  lemma LineProxyCharacterised(line: string, parse: string -> Option<IpAddress>, p: Proxy)
    ensures LineProxy(line, parse) == Some(p) <==>
            exists ipText, portText ::
              && Strip(line) == ipText + ":" + portText
              && ':' !in ipText && ':' !in portText
              && ParseInteger(Strip(portText)) == Some(p.port)
              && p == Proxy(ip := Strip(ipText), port := p.port)
              && p.IsValidPublicIp(parse)
  {
    var stripped := Strip(line);
    if LineProxy(line, parse) == Some(p) {
      var pieces := Split(stripped, ":");
      SplitPiecesAvoidSeparator(stripped, ':');
      JoinSplit(stripped, ":");
      assert Join(pieces, ":") == pieces[0] + ":" + Join(pieces[1..], ":");
      assert stripped == pieces[0] + ":" + pieces[1];
    }
    if exists ipText, portText ::
         && stripped == ipText + ":" + portText
         && ':' !in ipText && ':' !in portText
         && ParseInteger(Strip(portText)) == Some(p.port)
         && p == Proxy(ip := Strip(ipText), port := p.port)
         && p.IsValidPublicIp(parse)
    {
      var ipText, portText :|
         && stripped == ipText + ":" + portText
         && ':' !in ipText && ':' !in portText
         && ParseInteger(Strip(portText)) == Some(p.port)
         && p == Proxy(ip := Strip(ipText), port := p.port)
         && p.IsValidPublicIp(parse);
      SplitPair(ipText, portText);
      assert stripped[|ipText|] == ':';
    }
  }

  /** What each line of a text yields, in order. */
  function LineResults(lines: seq<string>, parse: string -> Option<IpAddress>): (r: seq<Option<Proxy>>)
    ensures |r| == |lines| && forall i :: 0 <= i < |lines| ==> r[i] == LineProxy(lines[i], parse)
  {
    seq(|lines|, i requires 0 <= i < |lines| => LineProxy(lines[i], parse))
  }

  /** The results of two runs of lines, one after the other. */
  lemma LineResultsAppend(xs: seq<string>, ys: seq<string>, parse: string -> Option<IpAddress>)
    ensures LineResults(xs + ys, parse) == LineResults(xs, parse) + LineResults(ys, parse)
  {
    var l, r := LineResults(xs + ys, parse), LineResults(xs, parse) + LineResults(ys, parse);
    forall i | 0 <= i < |l|
      ensures l[i] == r[i]
    {
      if i < |xs| {
        assert (xs + ys)[i] == xs[i];
      } else {
        assert (xs + ys)[i] == ys[i - |xs|];
      }
    }
  }

  /** The set of the proxies among per-line results. */
  function Gathered(found: seq<Option<Proxy>>): set<Proxy>
    decreases |found|
  {
    if found == [] then {}
    else
      var front := Gathered(found[..|found| - 1]);
      match found[|found| - 1]
      case None => front
      case Some(p) => front + {p}
  }

  /** The set the lines of a text produce: each line's proxy, if any. */
  function Extracted(lines: seq<string>, parse: string -> Option<IpAddress>): set<Proxy>
  {
    Gathered(LineResults(lines, parse))
  }

  /** `extract_proxies_from_text`, over the text's lines: every line is tried, in
      order, and the set of what they yield is returned. */
  method ExtractProxiesFromText(lines: seq<string>, parse: string -> Option<IpAddress>)
    returns (proxies: set<Proxy>)
    ensures proxies == Extracted(lines, parse)
  {
    ghost var found := LineResults(lines, parse);
    proxies := {};
    for i := 0 to |lines|
      invariant proxies == Gathered(found[..i])
    {
      assert found[..i + 1][..i] == found[..i] && found[..i + 1][i] == LineProxy(lines[i], parse);
      match LineProxy(lines[i], parse)
      case None =>
      case Some(p) =>
        proxies := proxies + {p};
    }
    assert found[..|lines|] == found;
  }

  /** A result is in the set exactly when some position holds it. */
  lemma {:induction false} GatheredCharacterised(found: seq<Option<Proxy>>)
    ensures forall p :: p in Gathered(found) <==> exists i :: 0 <= i < |found| && found[i] == Some(p)
    decreases |found|
  {
    if found != [] {
      var front := found[..|found| - 1];
      GatheredCharacterised(front);
      forall p
        ensures p in Gathered(found) <==> exists i :: 0 <= i < |found| && found[i] == Some(p)
      {
        if i :| 0 <= i < |front| && front[i] == Some(p) {
          assert found[i] == front[i];
        }
        if i :| 0 <= i < |found| && found[i] == Some(p) {
          if i < |front| {
            assert front[i] == found[i];
          }
        }
      }
    }
  }

  /** One result more at the end adds its proxy, if any. */
  lemma GatheredSnoc(found: seq<Option<Proxy>>, last: Option<Proxy>)
    ensures Gathered(found + [last])
            == Gathered(found) + (match last case None => {} case Some(p) => {p})
  {
    var more := found + [last];
    assert more[..|more| - 1] == found && more[|more| - 1] == last;
  }

  /** An empty result can be removed anywhere. */
  lemma {:induction false} GatheredSkip(pre: seq<Option<Proxy>>, post: seq<Option<Proxy>>)
    ensures Gathered(pre + [None] + post) == Gathered(pre + post)
    decreases |post|
  {
    if post == [] {
      GatheredSnoc(pre, None);
      assert pre + [None] + post == pre + [None] && pre + post == pre;
    } else {
      var front := post[..|post| - 1];
      var last := post[|post| - 1];
      GatheredSkip(pre, front);
      assert pre + [None] + post == (pre + [None] + front) + [last];
      assert pre + post == (pre + front) + [last];
      GatheredSnoc(pre + [None] + front, last);
      GatheredSnoc(pre + front, last);
    }
  }

  /** There are never more proxies than results. */
  lemma {:induction false} GatheredSize(found: seq<Option<Proxy>>)
    ensures |Gathered(found)| <= |found|
    decreases |found|
  {
    if found != [] {
      GatheredSize(found[..|found| - 1]);
    }
  }

  /** Every element comes from some line, and every line's proxy is in the set:
      no line, however malformed, stops the lines after it from being read. */
  lemma ExtractedCharacterised(lines: seq<string>, parse: string -> Option<IpAddress>)
    ensures forall p :: p in Extracted(lines, parse) <==>
              exists i :: 0 <= i < |lines| && LineProxy(lines[i], parse) == Some(p)
  {
    var found := LineResults(lines, parse);
    GatheredCharacterised(found);
    forall p
      ensures p in Extracted(lines, parse) <==>
              exists i :: 0 <= i < |lines| && LineProxy(lines[i], parse) == Some(p)
    {
      if i :| 0 <= i < |lines| && LineProxy(lines[i], parse) == Some(p) {
        assert found[i] == Some(p);
      }
    }
  }

  /** A line that yields nothing can be removed without changing the result. */
  lemma BadLineSkipped(pre: seq<string>, bad: string, post: seq<string>, parse: string -> Option<IpAddress>)
    requires LineProxy(bad, parse) == None
    ensures Extracted(pre + [bad] + post, parse) == Extracted(pre + post, parse)
  {
    LineResultsAppend(pre, [bad], parse);
    LineResultsAppend(pre + [bad], post, parse);
    LineResultsAppend(pre, post, parse);
    assert LineResults([bad], parse) == [None];
    GatheredSkip(LineResults(pre, parse), LineResults(post, parse));
  }

  /** A repeated line adds nothing: the result is a set. */
  lemma RepeatedLineOnce(lines: seq<string>, line: string, parse: string -> Option<IpAddress>)
    requires line in lines
    ensures Extracted(lines + [line], parse) == Extracted(lines, parse)
  {
    var found := LineResults(lines, parse);
    assert LineResults(lines + [line], parse) == found + [LineProxy(line, parse)];
    GatheredSnoc(found, LineProxy(line, parse));
    var i :| 0 <= i < |lines| && lines[i] == line;
    GatheredCharacterised(found);
    if LineProxy(line, parse).Some? {
      assert found[i] == LineProxy(line, parse);
    }
  }

  /** There are never more proxies than lines. */
  lemma ExtractedSize(lines: seq<string>, parse: string -> Option<IpAddress>)
    ensures |Extracted(lines, parse)| <= |lines|
  {
    GatheredSize(LineResults(lines, parse));
  }
}
