/**
  The liveness checker of `proxy_manager/checker.py`. A probe through the proxy
  is an abstract outcome: a reply with a status code and the elapsed time, or an
  exception. `check_proxy` turns it into a verdict on the mutable proxy object
  and reports the object to the store; `get_unchecked_proxies` selects records
  that were never probed; `check_random_proxies` probes those and keeps, in
  order, the ones that pass.
*/
module Checker {
  import opened Text
  import Models
  import opened Store
  import opened ProxyRecord

  /** The probe GET through the proxy: a reply (status code, elapsed seconds) or
      any exception raised while opening, sending or reading. */
  datatype ProbeOutcome = Replied(status: int, elapsed: nat) | Raised

  /** The probe GET for the proxy URL `check_proxy` builds from a protocol, an ip
      and a port. */
  type Probe = (string, string, int) -> ProbeOutcome

  /** The outcome of probing through this proxy. */
  function OutcomeOf(p: Proxy, probe: Probe): ProbeOutcome
  {
    probe(p.protocol, p.ip, p.port)
  }

  /** The probe passes exactly when a reply with status 200 came back. */
  predicate Passes(o: ProbeOutcome)
  {
    o.Replied? && o.status == 200
  }

  /** One `update_proxy_status(proxy)` call, with what the object carried then. */
  datatype StatusUpdate = StatusUpdate(ip: string, port: int, status: Models.Status, responseTime: Option<nat>)

  /** The status `check_proxy` sets for an outcome. */
  function Verdict(o: ProbeOutcome): Models.Status
  {
    if Passes(o) then Models.Working else Models.Failed
  }

  /** The latency a never-probed proxy has after `check_proxy` with this outcome. */
  function Latency(o: ProbeOutcome): Option<nat>
  {
    if Passes(o) then Some(o.elapsed) else None
  }

  /** The report a never-probed proxy produces for an outcome. */
  function Report(p: Proxy, o: ProbeOutcome): StatusUpdate
  {
    StatusUpdate(p.ip, p.port, Verdict(o), Latency(o))
  }

  /** The state `check_proxy` leaves on a proxy that had no latency before, when the
      probe through it is taken from `probe`. */
  predicate Probed(p: Proxy, probe: Probe)
    reads p
  {
    p.status == Verdict(OutcomeOf(p, probe)) && p.responseTime == Latency(OutcomeOf(p, probe))
  }

  /** The reports of probing each proxy of `ps` in turn. */
  function Reports(ps: seq<Proxy>, probe: Probe): (r: seq<StatusUpdate>)
    ensures |r| == |ps| && forall i :: 0 <= i < |ps| ==> r[i] == Report(ps[i], OutcomeOf(ps[i], probe))
  {
    seq(|ps|, i requires 0 <= i < |ps| => Report(ps[i], OutcomeOf(ps[i], probe)))
  }

  /** The store keys of a list of proxy objects. */
  function ProxyKeys(ps: seq<Proxy>): (keys: seq<Key>)
    ensures |keys| == |ps| && forall i :: 0 <= i < |ps| ==> keys[i] == Key(ps[i].ip, ps[i].port)
  {
    seq(|ps|, i requires 0 <= i < |ps| => Key(ps[i].ip, ps[i].port))
  }

  /** The probe through the proxy passes. */
  predicate ProbePasses(p: Proxy, probe: Probe)
  {
    Passes(OutcomeOf(p, probe))
  }

  /** The proxies of `ps` from position `from` on whose probe passes, in their
      order in `ps`. */
  function Survivors(ps: seq<Proxy>, probe: Probe, from: nat := 0): (r: seq<Proxy>)
    requires from <= |ps|
    ensures |r| <= |ps| - from
    decreases |ps| - from
  {
    if from == |ps| then []
    else (if ProbePasses(ps[from], probe) then [ps[from]] else []) + Survivors(ps, probe, from + 1)
  }

  /** The survivors are exactly the members of `ps` (from `from` on) whose probe passes. */
  lemma {:induction false} SurvivorsCharacterised(ps: seq<Proxy>, probe: Probe, from: nat := 0)
    requires from <= |ps|
    ensures forall p :: p in Survivors(ps, probe, from) <==>
              (exists j :: from <= j < |ps| && ps[j] == p) && ProbePasses(p, probe)
    decreases |ps| - from
  {
    if from < |ps| {
      SurvivorsCharacterised(ps, probe, from + 1);
      SurvivorsUnfold(ps, probe, from);
      forall p
        ensures p in Survivors(ps, probe, from) <==>
                (exists j :: from <= j < |ps| && ps[j] == p) && ProbePasses(p, probe)
      {
        if p != ps[from] && exists j :: from <= j < |ps| && ps[j] == p {
          var j :| from <= j < |ps| && ps[j] == p;
          assert from + 1 <= j;
        }
      }
    }
  }

  /** Survivors of `ps + qs` from a position inside `qs` are those of `qs`. */
  lemma {:induction false} SurvivorsShift(ps: seq<Proxy>, qs: seq<Proxy>, probe: Probe, from: nat)
    requires from <= |qs|
    ensures Survivors(ps + qs, probe, |ps| + from) == Survivors(qs, probe, from)
    decreases |qs| - from
  {
    if from < |qs| {
      SurvivorsShift(ps, qs, probe, from + 1);
      assert (ps + qs)[|ps| + from] == qs[from];
    }
  }

  /** Survivors of a concatenation are the survivors of each part, concatenated:
      the filter keeps relative order. */
  lemma {:induction false} SurvivorsAppend(ps: seq<Proxy>, qs: seq<Proxy>, probe: Probe, from: nat := 0)
    requires from <= |ps|
    ensures Survivors(ps + qs, probe, from) == Survivors(ps, probe, from) + Survivors(qs, probe)
    decreases |ps| - from
  {
    if from == |ps| {
      SurvivorsShift(ps, qs, probe, 0);
    } else {
      SurvivorsAppend(ps, qs, probe, from + 1);
      var p := ps[from];
      assert (ps + qs)[from] == p;
      var head := if ProbePasses(p, probe) then [p] else [];
      SurvivorsUnfold(ps + qs, probe, from);
      SurvivorsUnfold(ps, probe, from);
      Associative(head, Survivors(ps, probe, from + 1), Survivors(qs, probe));
    }
  }

  /** One unfolding of `Survivors` at a position inside the sequence. */
  lemma SurvivorsUnfold(ps: seq<Proxy>, probe: Probe, from: nat)
    requires from < |ps|
    ensures Survivors(ps, probe, from)
            == (if ProbePasses(ps[from], probe) then [ps[from]] else []) + Survivors(ps, probe, from + 1)
  {
  }

  lemma Associative(a: seq<Proxy>, b: seq<Proxy>, c: seq<Proxy>)
    ensures a + (b + c) == (a + b) + c
  {
  }

  /** One step of the filter at position `i`: the kept prefix grows by `ps[i]`
      exactly when its probe passes. */
  lemma SurvivorsStep(ps: seq<Proxy>, i: nat, probe: Probe, kept: seq<Proxy>, passed: bool)
    requires i < |ps| && kept + Survivors(ps, probe, i) == Survivors(ps, probe)
    requires passed <==> ProbePasses(ps[i], probe)
    ensures (if passed then kept + [ps[i]] else kept) + Survivors(ps, probe, i + 1) == Survivors(ps, probe)
  {
    var rest := Survivors(ps, probe, i + 1);
    if passed {
      assert Survivors(ps, probe, i) == [ps[i]] + rest;
      assert kept + ([ps[i]] + rest) == (kept + [ps[i]]) + rest;
    } else {
      assert Survivors(ps, probe, i) == [] + rest;
      assert [] + rest == rest;
    }
  }

  /** The reports of a prefix grow by one report per proxy, after any earlier log. */
  lemma ReportsStep(log: seq<StatusUpdate>, ps: seq<Proxy>, i: nat, probe: Probe)
    requires i < |ps|
    ensures log + Reports(ps[..i + 1], probe) == (log + Reports(ps[..i], probe)) + [Report(ps[i], OutcomeOf(ps[i], probe))]
  {
    assert ps[..i + 1][..i] == ps[..i] && ps[..i + 1][i] == ps[i];
    assert Reports(ps[..i + 1], probe) == Reports(ps[..i], probe) + [Report(ps[i], OutcomeOf(ps[i], probe))];
  }

  /** The checker: its store, the probe URL, and the reports it has made. */
  class ProxyChecker {
    const manager: ProxyManager
    const checkUrl: string
    var statusUpdates: seq<StatusUpdate>

    constructor (manager: ProxyManager)
      ensures this.manager == manager && checkUrl == "http://api.ipify.org?format=json"
      ensures statusUpdates == []
    {
      this.manager := manager;
      checkUrl := "http://api.ipify.org?format=json";
      statusUpdates := [];
    }

    /** `check_proxy(proxy)`: True exactly for a 200 reply, which marks the proxy
        working and records the elapsed time; any other status or an exception
        marks it failed and keeps its previous latency. The proxy is reported
        once, after its status is set; nothing else about it changes. */
    method CheckProxy(proxy: Proxy, outcome: ProbeOutcome) returns (ok: bool)
      modifies this, proxy
      ensures ok <==> Passes(outcome)
      ensures proxy.status == (if ok then Models.Working else Models.Failed)
      ensures proxy.responseTime == (if ok then Some(outcome.elapsed) else old(proxy.responseTime))
      ensures proxy.collectionDate == old(proxy.collectionDate) && proxy.lastCheck == old(proxy.lastCheck)
      ensures statusUpdates == old(statusUpdates) + [StatusUpdate(proxy.ip, proxy.port, proxy.status, proxy.responseTime)]
    {
      if outcome.Replied? && outcome.status == 200 {
        proxy.responseTime := Some(outcome.elapsed);
        proxy.status := Models.Working;
        statusUpdates := statusUpdates + [StatusUpdate(proxy.ip, proxy.port, proxy.status, proxy.responseTime)];
        return true;
      }
      proxy.status := Models.Failed;
      statusUpdates := statusUpdates + [StatusUpdate(proxy.ip, proxy.port, proxy.status, proxy.responseTime)];
      return false;
    }

    /** `get_unchecked_proxies(limit)`: at most `limit` records that were never
        probed and are not outdated — all of them when fewer qualify — each as a
        new proxy object with the record's identity and protocol and nothing probed. */
    method GetUncheckedProxies(limit: nat := 100) returns (proxies: seq<Proxy>)
      ensures IsSelection(manager.proxies, NeverChecked, limit, ProxyKeys(proxies))
      ensures forall i :: 0 <= i < |proxies| ==>
                && fresh(proxies[i])
                && proxies[i].protocol == manager.proxies[Key(proxies[i].ip, proxies[i].port)].protocol
                && proxies[i].status == Models.Unchecked && proxies[i].responseTime == None
      ensures forall i, j :: 0 <= i < j < |proxies| ==> proxies[i] != proxies[j]
    {
      var t := manager.proxies;
      var keys := SelectAny(t, NeverChecked, limit);
      proxies := [];
      var i := 0;
      while i < |keys|
        invariant 0 <= i <= |keys| && |proxies| == i
        invariant forall j :: 0 <= j < i ==> Key(proxies[j].ip, proxies[j].port) == keys[j]
        invariant forall j :: 0 <= j < i ==>
                    && fresh(proxies[j])
                    && proxies[j].protocol == t[keys[j]].protocol
                    && proxies[j].status == Models.Unchecked && proxies[j].responseTime == None
        invariant forall j, k :: 0 <= j < k < i ==> proxies[j] != proxies[k]
      {
        var p := new Proxy(keys[i].ip, keys[i].port, t[keys[i]].protocol);
        proxies := proxies + [p];
        i := i + 1;
      }
      assert ProxyKeys(proxies) == keys;
    }

    /** The loop of `check_random_proxies`: each proxy of `ps`, none of which has a
        latency yet, is checked once, in order, and kept when its check passes. */
    method ProbeEach(ps: seq<Proxy>, probe: Probe) returns (working: seq<Proxy>)
      requires forall i, j :: 0 <= i < j < |ps| ==> ps[i] != ps[j]
      requires forall j :: 0 <= j < |ps| ==> ps[j].responseTime == None
      modifies this, ps
      ensures working == Survivors(ps, probe)
      ensures forall j :: 0 <= j < |ps| ==> Probed(ps[j], probe)
      ensures statusUpdates == old(statusUpdates) + Reports(ps, probe)
    {
      working := [];
      var i := 0;
      while i < |ps|
        invariant 0 <= i <= |ps|
        invariant working + Survivors(ps, probe, i) == Survivors(ps, probe)
        invariant forall j :: 0 <= j < i ==> Probed(ps[j], probe)
        invariant forall j :: i <= j < |ps| ==> ps[j].responseTime == None
        invariant statusUpdates == old(statusUpdates) + Reports(ps[..i], probe)
      {
        var p := ps[i];
        var passed := CheckProxy(p, OutcomeOf(p, probe));
        forall j | 0 <= j < i
          ensures Probed(ps[j], probe)
        {
          assert ps[j] != p;
        }
        forall j | i < j < |ps|
          ensures ps[j].responseTime == None
        {
          assert ps[j] != p;
        }
        SurvivorsStep(ps, i, probe, working, passed);
        ReportsStep(old(statusUpdates), ps, i, probe);
        if passed {
          working := working + [p];
        }
        i := i + 1;
      }
      assert ps[..|ps|] == ps;
    }

    /** `check_random_proxies(limit)`: the never-probed selection, each probed once in
        order; each candidate is a new object carrying its record's protocol, which
        the probe goes through. The result is exactly the ones that passed, in the
        same order, so no more than `limit`. Every candidate ends with the verdict of its probe and is
        reported once, in order. */
    method CheckRandomProxies(probe: Probe, limit: nat := 10)
      returns (working: seq<Proxy>, ghost candidates: seq<Proxy>)
      modifies this
      ensures IsSelection(old(manager.proxies), NeverChecked, limit, ProxyKeys(candidates))
      ensures working == Survivors(candidates, probe) && |working| <= limit
      ensures forall j :: 0 <= j < |candidates| ==>
                && fresh(candidates[j])
                && candidates[j].protocol
                   == old(manager.proxies)[Key(candidates[j].ip, candidates[j].port)].protocol
      ensures forall j :: 0 <= j < |candidates| ==> Probed(candidates[j], probe)
      ensures statusUpdates == old(statusUpdates) + Reports(candidates, probe)
    {
      var ps := GetUncheckedProxies(limit);
      candidates := ps;
      working := ProbeEach(ps, probe);
    }
  }
}
