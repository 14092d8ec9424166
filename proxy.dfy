/**
  The mutable proxy object of `proxy_manager/proxy.py`, the one the checker
  hands to a probe and then updates: its identity and protocol are fixed at
  construction, while verdict, latency and timestamps start empty.
*/
module ProxyRecord {
  import opened Text
  import opened Models

  class Proxy {
    const ip: string
    const port: int
    const protocol: string
    var status: Status
    var responseTime: Option<nat>
    var collectionDate: Option<int>
    var lastCheck: Option<int>

    /** `Proxy(ip, port, protocol='http')`: identity as given, nothing probed yet. */
    constructor (ip: string, port: int, protocol: string := "http")
      ensures this.ip == ip && this.port == port && this.protocol == protocol
      ensures status == Unchecked && responseTime == None
      ensures collectionDate == None && lastCheck == None
    {
      this.ip := ip;
      this.port := port;
      this.protocol := protocol;
      status := Unchecked;
      responseTime := None;
      collectionDate := None;
      lastCheck := None;
    }

    /** The `url` property, in the same format as models.py and manager.py. */
    function Url(): string
    {
      FormatUrl(protocol, ip, port)
    }
  }

  /** The object's URL is the shared format, so for a colon-free protocol and ip
      the store's URL parse gives its identity back. */
  lemma UrlRoundTrip(p: Proxy)
    requires ':' !in p.protocol && ':' !in p.ip
    ensures p.Url() == p.protocol + "://" + p.ip + ":" + IntToString(p.port)
    ensures ParseProxyUrl(p.Url()) == Success(AddressParts(p.ip, IntToString(p.port)))
  {
    FormatUrlRoundTrip(p.protocol, p.ip, p.port);
  }
}
