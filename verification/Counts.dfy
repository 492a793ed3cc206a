/** Counting tunnels client by client, and counting them by the index maps. */
module Counts {
  import opened RegistryModel

  function CountIn(ts: seq<Tunnel>, kind: Kind): nat {
    if ts == [] then 0 else CountIn(ts[..|ts| - 1], kind) + (if ts[|ts| - 1].kind == kind then 1 else 0)
  }

  /** The tunnels of one kind over a list of clients. */
  function CountOver(r: Reg, ids: seq<string>, kind: Kind): nat
    requires forall id :: id in ids ==> id in r.byID
  {
    if ids == [] then 0 else
      CountOver(r, ids[..|ids| - 1], kind) + CountIn(r.byID[ids[|ids| - 1]], kind)
  }

  lemma CountNext(r: Reg, ids: seq<string>, n: nat, kind: Kind)
    requires n < |ids| && forall i :: 0 <= i < |ids| ==> ids[i] in r.byID
    ensures CountOver(r, ids[..n + 1], kind) == CountOver(r, ids[..n], kind) + CountIn(r.byID[ids[n]], kind)
  {
    assert ids[..n + 1][..n] == ids[..n];
  }

  /** An order in which a traversal of the clients can visit them: each once. */
  ghost predicate Enumerates(r: Reg, ids: seq<string>) {
    && (forall id :: id in ids <==> id in r.byID)
    && (forall i, j :: 0 <= i < j < |ids| ==> ids[i] != ids[j])
  }

  lemma {:induction false} KeysCounted(ts: seq<Tunnel>)
    requires DistinctHttp(ts)
    ensures |HttpKeys(ts)| == CountIn(ts, HTTP)
  {
    if ts != [] {
      var n := |ts| - 1;
      KeysCounted(ts[..n]);
      if ts[n].kind.HTTP? {
        assert forall i :: 0 <= i < n && ts[i].kind.HTTP? ==> ts[i].subdomain != ts[n].subdomain;
        assert HttpKeys(ts) == HttpKeys(ts[..n]) + {ts[n].subdomain};
      } else {
        assert HttpKeys(ts) == HttpKeys(ts[..n]);
      }
    }
  }

  ghost predicate DistinctPorts(ts: seq<Tunnel>) {
    forall i, j :: 0 <= i < j < |ts| && ts[i].kind.TCP? && ts[j].kind.TCP? ==> ts[i].remotePort != ts[j].remotePort
  }

  lemma {:induction false} PortsCounted(ts: seq<Tunnel>)
    requires DistinctPorts(ts)
    ensures |TcpPorts(ts)| == CountIn(ts, TCP)
  {
    if ts != [] {
      var n := |ts| - 1;
      PortsCounted(ts[..n]);
      if ts[n].kind.TCP? {
        assert forall i :: 0 <= i < n && ts[i].kind.TCP? ==> ts[i].remotePort != ts[n].remotePort;
        assert TcpPorts(ts) == TcpPorts(ts[..n]) + {ts[n].remotePort};
      } else {
        assert TcpPorts(ts) == TcpPorts(ts[..n]);
      }
    }
  }

  lemma PortsDiffer(r: Reg, held: map<string, Listener>, id: string)
    requires TcpInv(r, held) && id in r.byID
    ensures DistinctPorts(r.byID[id])
  {
    var ts := r.byID[id];
    forall i, j | 0 <= i < j < |ts| && ts[i].kind.TCP? && ts[j].kind.TCP?
      ensures ts[i].remotePort != ts[j].remotePort
    {
      assert TunnelOk(ts[i]) && TunnelOk(ts[j]);
      assert HoldsSocket(r, id, ts[i].tcpLn.value) && HoldsSocket(r, id, ts[j].tcpLn.value);
    }
  }

  /** Subdomains, and ports, that the clients of a list hold. */
  ghost function HttpKeysOver(r: Reg, ids: seq<string>): set<string> {
    set k | k in r.bySubdomain && r.bySubdomain[k] in ids
  }

  ghost function PortsOver(r: Reg, ids: seq<string>): set<int> {
    set p | p in r.byPort && r.byPort[p] in ids
  }

  lemma KeysOfLast(r: Reg, before: seq<string>, id: string)
    requires HttpExact(r) && id in r.byID && id !in before
    ensures HttpKeysOver(r, before + [id]) == HttpKeysOver(r, before) + HttpKeys(r.byID[id])
    ensures HttpKeysOver(r, before) !! HttpKeys(r.byID[id])
  {
    assert forall k :: HoldsHttp(r, id, k) <==> Routes(r, k, id);
    assert forall k :: k in HttpKeys(r.byID[id]) <==> Routes(r, k, id);
    assert forall i :: i in before + [id] <==> i in before || i == id;
  }

  lemma {:induction false} HttpCounted(r: Reg, ids: seq<string>)
    requires HttpInv(r)
    requires forall id :: id in ids ==> id in r.byID
    requires forall i, j :: 0 <= i < j < |ids| ==> ids[i] != ids[j]
    ensures CountOver(r, ids, HTTP) == |HttpKeysOver(r, ids)|
  {
    hide HttpExact;
    if ids != [] {
      var n := |ids| - 1;
      assert ids == ids[..n] + [ids[n]] && ids[n] in ids;
      HttpCounted(r, ids[..n]);
      KeysCounted(r.byID[ids[n]]);
      KeysOfLast(r, ids[..n], ids[n]);
    }
  }

  lemma PortsOfLast(r: Reg, before: seq<string>, id: string)
    requires PortsExact(r) && id in r.byID && id !in before
    ensures PortsOver(r, before + [id]) == PortsOver(r, before) + TcpPorts(r.byID[id])
    ensures PortsOver(r, before) !! TcpPorts(r.byID[id])
  {
    assert forall p :: HoldsPort(r, id, p) <==> RoutesPort(r, p, id);
    assert forall i :: i in before + [id] <==> i in before || i == id;
    forall p
      ensures p in PortsOver(r, before + [id]) <==> p in PortsOver(r, before) || p in TcpPorts(r.byID[id])
    {
      assert p in TcpPorts(r.byID[id]) <==> RoutesPort(r, p, id);
    }
    assert forall p :: p in TcpPorts(r.byID[id]) ==> RoutesPort(r, p, id);
  }

  lemma {:induction false} TcpCounted(r: Reg, held: map<string, Listener>, ids: seq<string>)
    requires TcpInv(r, held)
    requires forall id :: id in ids ==> id in r.byID
    requires forall i, j :: 0 <= i < j < |ids| ==> ids[i] != ids[j]
    ensures CountOver(r, ids, TCP) == |PortsOver(r, ids)|
  {
    hide SocketsOwned, ListsOk, PortsExact;
    if ids != [] {
      var n := |ids| - 1;
      assert ids == ids[..n] + [ids[n]] && ids[n] in ids;
      TcpCounted(r, held, ids[..n]);
      PortsDiffer(r, held, ids[n]);
      PortsCounted(r.byID[ids[n]]);
      PortsOfLast(r, ids[..n], ids[n]);
    }
  }

  lemma {:induction false} DistinctCount(ids: seq<string>)
    requires forall i, j :: 0 <= i < j < |ids| ==> ids[i] != ids[j]
    ensures |set id | id in ids| == |ids|
  {
    if ids != [] {
      var n := |ids| - 1;
      DistinctCount(ids[..n]);
      assert ids[n] !in ids[..n];
      assert (set id | id in ids) == (set id | id in ids[..n]) + {ids[n]};
    }
  }

  /**
    The counts the metrics endpoint reads off the map sizes are the counts the dashboard gets from the
    tunnel lists, whatever the order of traversal.
  */
  lemma MapSizesCount(r: Reg, held: map<string, Listener>, ids: seq<string>)
    requires TcpInv(r, held) && HttpInv(r) && Enumerates(r, ids)
    ensures |ids| == |r.byID|
    ensures CountOver(r, ids, HTTP) == |r.bySubdomain|
    ensures CountOver(r, ids, TCP) == |r.byPort|
  {
    HttpCounted(r, ids);
    TcpCounted(r, held, ids);
    DistinctCount(ids);
    assert (set id | id in ids) == r.byID.Keys;
    assert HttpKeysOver(r, ids) == r.bySubdomain.Keys by {
      forall k | k in r.bySubdomain
        ensures r.bySubdomain[k] in ids
      {
        assert Routes(r, k, r.bySubdomain[k]) && HoldsHttp(r, r.bySubdomain[k], k);
      }
    }
    assert PortsOver(r, ids) == r.byPort.Keys by {
      forall p | p in r.byPort
        ensures r.byPort[p] in ids
      {
        assert RoutesPort(r, p, r.byPort[p]) && HoldsPort(r, r.byPort[p], p);
      }
    }
  }
}
