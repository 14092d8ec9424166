/**
  Value types shared by the whole package: the verdict tri-state, the frozen
  `Proxy` record of `proxy_manager/models.py`, the `ip:port` and
  `protocol://ip:port` formats every module prints, and the inverse parse that
  `ProxyManager.mark_proxy_as_failed` applies to such a URL.
*/
module Models {
  import opened Text

  /** A record's verdict: never probed (SQL NULL / Python None), working or failed. */
  datatype Status = Unchecked | Working | Failed

  /** `f"{ip}:{port}"`. */
  function FormatAddress(ip: string, port: int): string
  {
    ip + ":" + IntToString(port)
  }

  /** `f"{protocol}://{ip}:{port}"`, the URL format of models.py, proxy.py and manager.py. */
  function FormatUrl(protocol: string, ip: string, port: int): string
  {
    protocol + "://" + FormatAddress(ip, port)
  }

  /** The two strings `mark_proxy_as_failed` takes from a URL. */
  datatype AddressParts = AddressParts(ip: string, port: string)

  /** The exceptions Python raises in the code modelled here. */
  datatype Error = IndexError | ValueError

  datatype Result<T> = Success(value: T) | Failure(error: Error)

  /** `parts = url.split('://')[-1].split(':')`, then `parts[0]` and `parts[1]`:
      the text after the last "://" is cut at every ':', and fewer than two
      pieces is the `IndexError` of `parts[1]`. Pieces after the second are ignored. */
  function ParseProxyUrl(url: string): (r: Result<AddressParts>)
    ensures r.Failure? <==> ':' !in Last(Split(url, "://"))
    ensures r.Failure? ==> r.error == IndexError
    ensures r.Success? ==> ':' !in r.value.ip && ':' !in r.value.port
  {
    var afterScheme := Last(Split(url, "://"));
    var parts := Split(afterScheme, ":");
    SplitPiecesAvoidSeparator(afterScheme, ':');
    SingletonSplitHasNoSeparator(afterScheme);
    if |parts| < 2 then Failure(IndexError) else Success(AddressParts(parts[0], parts[1]))
  }

  function Last(pieces: seq<string>): string
    requires |pieces| >= 1
  {
    pieces[|pieces| - 1]
  }

  /** A string splits on ':' into one piece exactly when it holds no ':'. */
  lemma SingletonSplitHasNoSeparator(s: string)
    ensures (|Split(s, ":")| == 1) <==> ':' !in s
  {
    if ':' in s {
      var i :| 0 <= i < |s| && s[i] == ':';
      JoinSplit(s, ":");
      SplitPiecesAvoidSeparator(s, ':');
    } else {
      assert NoOccurrence(s, ":") by {
        forall i ensures !OccursAt(s, ":", i) {
          if 0 <= i <= |s| - 1 {
            assert s[i..i + 1][0] == s[i];
          }
        }
      }
      SplitWithoutSeparator(s, ":");
    }
  }

  /** For a colon-free protocol and ip, the URL parse recovers the ip and the port's
      decimal text, whatever the port. */
  lemma FormatUrlRoundTrip(protocol: string, ip: string, port: int)
    requires ':' !in protocol && ':' !in ip
    ensures ParseProxyUrl(FormatUrl(protocol, ip, port)) == Success(AddressParts(ip, IntToString(port)))
  {
    var digits := IntToString(port);
    var address := FormatAddress(ip, port);
    var url := protocol + "://" + address;
    IntToStringPunctuation(port);
    SplitAfterHead(protocol, "://", address);
    assert NoOccurrence(address, "://") by {
      forall i ensures !OccursAt(address, "://", i) {
        if 0 <= i <= |address| - 3 {
          assert address[i..i + 3][0] == address[i] && address[i..i + 3][1] == address[i + 1];
          if i < |ip| {
            assert address[i] == ip[i];
          } else if i == |ip| {
            assert address[i + 1] == digits[0];
          } else {
            assert address[i] == digits[i - |ip| - 1];
          }
        }
      }
    }
    SplitWithoutSeparator(address, "://");
    assert Split(url, "://") == [protocol, address];
    SplitPair(ip, digits);
  }

  /** The frozen dataclass of models.py; datatype equality compares all six fields,
      as the generated `__eq__` and `__hash__` do. */
  datatype Proxy = Proxy(
    ip: string,
    port: int,
    protocol: string := "http",
    country: string := "",
    anonymity: string := "",
    responseTime: nat := 0)
  {
    /** `__str__`: `ip:port`. The ip comes first, then a ':', then a decimal text
        that `int()` reads back as the port. */
    function Str(): (r: string)
      ensures |r| > |ip| + 1 && r[..|ip|] == ip && r[|ip|] == ':'
      ensures ParseInteger(r[|ip| + 1..]) == Some(port)
    {
      IntToStringPunctuation(port);
      ParseIntToString(port);
      var r := FormatAddress(ip, port);
      assert r[|ip| + 1..] == IntToString(port);
      r
    }

    /** The `url` property: the protocol, "://" and `__str__`, which is the URL format
        the store prints and parses back. */
    function Url(): (r: string)
      ensures r == FormatUrl(protocol, ip, port)
    {
      protocol + "://" + Str()
    }

    /** The `is_valid_protocol` property: `protocol.lower() in ('http', 'https')`. */
    predicate IsValidProtocol()
    {
      Lower(protocol) == "http" || Lower(protocol) == "https"
    }

    /** The `is_valid_public_ip` property over an abstract address parser: false when
        the ip does not parse, otherwise no category of non-public address applies. */
    predicate IsValidPublicIp(parse: string -> Option<IpAddress>)
    {
      match parse(ip)
      case None => false
      case Some(a) => a.IsPublic()
    }
  }

  /** The six classifications `ipaddress.ip_address` offers that `is_valid_public_ip` tests. */
  datatype IpAddress = IpAddress(
    isPrivate: bool,
    isLoopback: bool,
    isLinkLocal: bool,
    isMulticast: bool,
    isReserved: bool,
    isUnspecified: bool)
  {
    predicate IsPublic()
    {
      !isPrivate && !isLoopback && !isLinkLocal && !isMulticast && !isReserved && !isUnspecified
    }
  }

  /** `__str__` splits back on ':' into the ip and the port's decimal text, which
      `int()` turns back into the port, so long as the ip holds no ':'. */
  lemma StrRoundTrip(p: Proxy)
    requires ':' !in p.ip
    ensures Split(p.Str(), ":") == [p.ip, IntToString(p.port)]
    ensures ParseInteger(IntToString(p.port)) == Some(p.port)
  {
    IntToStringPunctuation(p.port);
    ParseIntToString(p.port);
    SplitPair(p.ip, IntToString(p.port));
  }

  /** `url` is the shared URL format, so the store's URL parse recovers the ip and
      port of a proxy whose protocol and ip are colon-free. */
  lemma UrlRoundTrip(p: Proxy)
    requires ':' !in p.protocol && ':' !in p.ip
    ensures p.Url() == FormatUrl(p.protocol, p.ip, p.port)
    ensures ParseProxyUrl(p.Url()) == Success(AddressParts(p.ip, IntToString(p.port)))
  {
    FormatUrlRoundTrip(p.protocol, p.ip, p.port);
  }

  /** A protocol is valid exactly when it spells "http" or "https" in any mixture of cases. */
  lemma {:induction false} ValidProtocolCharacterised(p: Proxy)
    ensures p.IsValidProtocol() <==>
              (|p.protocol| == 4 && forall i :: 0 <= i < 4 ==> LowerChar(p.protocol[i]) == "http"[i])
              || (|p.protocol| == 5 && forall i :: 0 <= i < 5 ==> LowerChar(p.protocol[i]) == "https"[i])
  {
    var l := Lower(p.protocol);
    if |p.protocol| == 4 && forall i :: 0 <= i < 4 ==> LowerChar(p.protocol[i]) == "http"[i] {
      assert l == "http";
    }
    if |p.protocol| == 5 && forall i :: 0 <= i < 5 ==> LowerChar(p.protocol[i]) == "https"[i] {
      assert l == "https";
    }
  }

  /** `Proxy("1.2.3.4", 80, protocol="HTTPS").is_valid_protocol` holds; "socks5" does not. */
  lemma ValidProtocolExamples()
    ensures Proxy("1.2.3.4", 80, protocol := "HTTPS").IsValidProtocol()
    ensures Proxy("1.2.3.4", 80, protocol := "Http").IsValidProtocol()
    ensures !Proxy("1.2.3.4", 80, protocol := "socks5").IsValidProtocol()
  {
    assert Lower("HTTPS") == "https";
    assert Lower("Http") == "http";
    assert Lower("socks5")[0] == 's';
  }

  /** An address the parser rejects is never a valid public ip. */
  lemma UnparsableIpIsNotPublic(p: Proxy, parse: string -> Option<IpAddress>)
    requires parse(p.ip).None?
    ensures !p.IsValidPublicIp(parse)
  {
  }

  /** The defaults of the dataclass fields. */
  lemma ProxyDefaults(ip: string, port: int)
    ensures var p := Proxy(ip, port);
            p.protocol == "http" && p.country == "" && p.anonymity == "" && p.responseTime == 0
  {
  }

  /** Set membership uses all fields: the same ip:port with another protocol or
      country is a different member. */
  lemma SameAddressDistinctMembers(p: Proxy, q: Proxy)
    requires p.ip == q.ip && p.port == q.port
    requires p.protocol != q.protocol || p.country != q.country
    ensures p.Str() == q.Str()
    ensures |{p, q}| == 2
  {
  }
}
