/** Each critical section keeps the relations between the maps, the tunnel lists and the open sockets. */
module RegistryFacts {
  import opened RegistryModel

  // ----- one list

  lemma AppendKeys(ts: seq<Tunnel>, t: Tunnel)
    ensures HttpKeys(ts + [t]) == HttpKeys(ts) + HttpKeys([t])
    ensures TcpPorts(ts + [t]) == TcpPorts(ts) + TcpPorts([t])
    ensures Sockets(ts + [t]) == Sockets(ts) + Sockets([t])
  {
    assert forall x :: x in ts + [t] <==> x in ts || x in [t];
  }

  lemma SingleKeys(t: Tunnel)
    ensures HttpKeys([t]) == (if t.kind.HTTP? then {t.subdomain} else {})
    ensures TcpPorts([t]) == (if t.kind.TCP? then {t.remotePort} else {})
    ensures Sockets([t]) == (if t.kind.TCP? && t.tcpLn.Some? then {t.tcpLn.value} else {})
  {
    assert t in [t];
  }

  /** The same tunnels, up to the removed one. */
  lemma WithoutElements(ts: seq<Tunnel>, i: nat)
    requires i < |ts|
    ensures forall x :: x in ts <==> x in Without(ts, i) || x == ts[i]
    ensures forall k :: 0 <= k < |ts| && k != i ==> ts[k] in Without(ts, i)
    ensures forall x :: x in Without(ts, i) ==> exists k :: 0 <= k < |ts| && k != i && ts[k] == x
  {
    var w := Without(ts, i);
    forall k | 0 <= k < |ts| && k != i
      ensures ts[k] in w
    {
      assert w[if k < i then k else k - 1] == ts[k];
    }
    forall x | x in w
      ensures exists k :: 0 <= k < |ts| && k != i && ts[k] == x
    {
      var j :| 0 <= j < |w| && w[j] == x;
      var k := if j < i then j else j + 1;
      assert ts[k] == x;
    }
  }

  lemma WithoutKeys(ts: seq<Tunnel>, i: nat)
    requires i < |ts|
    ensures HttpKeys(ts) - HttpKeys([ts[i]]) <= HttpKeys(Without(ts, i)) <= HttpKeys(ts)
    ensures DistinctHttp(ts) ==> HttpKeys(Without(ts, i)) == HttpKeys(ts) - HttpKeys([ts[i]])
    ensures DistinctSockets(ts) && ListOk(ts) ==> Sockets(Without(ts, i)) == Sockets(ts) - Sockets([ts[i]])
    ensures HttpKeys([ts[i]]) <= HttpKeys(ts) && TcpPorts([ts[i]]) <= TcpPorts(ts) && Sockets([ts[i]]) <= Sockets(ts)
  {
    WithoutElements(ts, i);
    SingleKeys(ts[i]);
    assert ts[i] in ts;
  }

  /** Two tunnels of one list that have the same port are the same tunnel. */
  lemma WithoutPorts(ts: seq<Tunnel>, i: nat, open: set<Listener>)
    requires i < |ts|
    requires OnePerPort(open) && DistinctSockets(ts) && Sockets(ts) <= open && ListOk(ts)
    ensures TcpPorts(Without(ts, i)) == TcpPorts(ts) - TcpPorts([ts[i]])
  {
    WithoutElements(ts, i);
    SingleKeys(ts[i]);
    forall k | 0 <= k < |ts| && k != i && ts[k].kind.TCP? && ts[i].kind.TCP?
      ensures ts[k].remotePort != ts[i].remotePort
    {
      assert TunnelOk(ts[k]) && TunnelOk(ts[i]);
      assert ts[k].tcpLn.value in Sockets(ts) && ts[i].tcpLn.value in Sockets(ts);
    }
  }

  lemma PositionKeys(us: seq<Tunnel>, ts: seq<Tunnel>)
    requires |us| == |ts|
    requires forall k :: 0 <= k < |ts| ==> us[k].kind == ts[k].kind
    requires forall k :: 0 <= k < |ts| ==> us[k].subdomain == ts[k].subdomain
    requires forall k :: 0 <= k < |ts| ==> us[k].remotePort == ts[k].remotePort && us[k].tcpLn == ts[k].tcpLn
    ensures HttpKeys(us) <= HttpKeys(ts) && TcpPorts(us) <= TcpPorts(ts) && Sockets(us) <= Sockets(ts)
  {
    forall u | u in us
      ensures exists t :: t in ts && t.kind == u.kind && t.subdomain == u.subdomain && t.remotePort == u.remotePort &&
                          t.tcpLn == u.tcpLn
    {
      var k :| 0 <= k < |us| && us[k] == u;
      assert ts[k] in ts;
    }
  }

  lemma SetDirKeys(ts: seq<Tunnel>, i: nat, dir: string)
    requires i < |ts|
    ensures var us := ts[i := WithDir(ts[i], dir)];
            HttpKeys(us) == HttpKeys(ts) && TcpPorts(us) == TcpPorts(ts) && Sockets(us) == Sockets(ts)
  {
    var us := ts[i := WithDir(ts[i], dir)];
    PositionKeys(us, ts);
    PositionKeys(ts, us);
  }

  // ----- sockets and ports

  /** What a client holds follows from its port: no other client has it. */
  lemma OwnersCarryOver(r: Reg, held: map<string, Listener>, q: Reg, held': map<string, Listener>)
    requires TcpInv(r, held)
    requires forall id, l :: HoldsSocket(r, id, l) && l in q.open ==> HoldsSocket(q, id, l)
    requires forall h, l :: HeldBy(held, h, l) && l in q.open ==> HeldBy(held', h, l) || HasOwner(q, held', l)
    ensures forall l :: l in r.open && l in q.open ==> HasOwner(q, held', l)
  {
    forall l | l in r.open && l in q.open
      ensures HasOwner(q, held', l)
    {
      assert HasOwner(r, held, l);
    }
  }

  lemma AddClientTcp(r: Reg, held: map<string, Listener>, id: string)
    requires TcpInv(r, held) && id !in r.byID
    ensures TcpInv(AddClient(r, id), held)
  {
    OwnersCarryOver(r, held, AddClient(r, id), held);
    assert forall i, p :: HoldsPort(AddClient(r, id), i, p) <==> HoldsPort(r, i, p);
    assert forall i, p :: RoutesPort(AddClient(r, id), p, i) <==> RoutesPort(r, p, i);
    assert forall i, l :: HoldsSocket(AddClient(r, id), i, l) <==> HoldsSocket(r, i, l);
  }

  /** Any change of one list that keeps its sockets and ports. */
  lemma SameSockets(r: Reg, q: Reg, held: map<string, Listener>, id: string)
    requires TcpInv(r, held) && id in r.byID
    requires q.open == r.open && q.byPort == r.byPort
    requires id in q.byID && q.byID == r.byID[id := q.byID[id]]
    requires Sockets(q.byID[id]) == Sockets(r.byID[id]) && TcpPorts(q.byID[id]) == TcpPorts(r.byID[id])
    requires DistinctSockets(q.byID[id]) && ListOk(q.byID[id])
    ensures TcpInv(q, held)
  {
    OwnersCarryOver(r, held, q, held);
    assert forall i, p :: HoldsPort(q, i, p) <==> HoldsPort(r, i, p);
    assert forall i, p :: RoutesPort(q, p, i) <==> RoutesPort(r, p, i);
    assert forall i, l :: HoldsSocket(q, i, l) <==> HoldsSocket(r, i, l);
  }

  lemma RegisterHTTPTcp(r: Reg, held: map<string, Listener>, id: string, t: Tunnel)
    requires TcpInv(r, held) && id in r.byID && t.kind.HTTP? && TunnelOk(t)
    ensures TcpInv(RegisterHTTP(r, id, t), held)
  {
    AppendKeys(r.byID[id], t);
    SingleKeys(t);
    SameSockets(r, RegisterHTTP(r, id, t), held, id);
  }

  lemma SetDirTcp(r: Reg, held: map<string, Listener>, id: string, name: string, dir: string)
    requires TcpInv(r, held)
    ensures TcpInv(SetDir(r, id, name, dir), held)
  {
    if HasTunnel(r, id, name) {
      var ts, i := r.byID[id], IndexOfName(r.byID[id], name);
      SetDirKeys(ts, i, dir);
      assert TunnelOk(ts[i]);
      SameSockets(r, SetDir(r, id, name, dir), held, id);
    }
  }

  lemma ListenTcp(r: Reg, held: map<string, Listener>, h: string, l: Listener)
    requires TcpInv(r, held) && h !in held
    requires l !in r.open && forall k :: k in r.open ==> k.port != l.port
    ensures TcpInv(r.(open := r.open + {l}), held[h := l])
  {
    var q, held' := r.(open := r.open + {l}), held[h := l];
    assert forall i, p :: HoldsPort(q, i, p) <==> HoldsPort(r, i, p);
    assert forall i, p :: RoutesPort(q, p, i) <==> RoutesPort(r, p, i);
    assert forall i, k :: HoldsSocket(q, i, k) <==> HoldsSocket(r, i, k);
    assert forall g, k :: HeldBy(held', g, k) <==> HeldBy(held, g, k) || (g == h && k == l);
    OwnersCarryOver(r, held, q, held');
    assert HeldBy(held', h, l);
  }

  /** A tunnel's port is the port of a socket its client holds. */
  lemma PortSocket(r: Reg, id: string, p: int) returns (l: Listener)
    requires ListsOk(r) && HoldsPort(r, id, p)
    ensures HoldsSocket(r, id, l) && l.port == p
  {
    var t :| t in r.byID[id] && t.kind.TCP? && t.remotePort == p;
    assert TunnelOk(t);
    l := t.tcpLn.value;
  }

  /** No tunnel has the port of an open socket that a handler still holds. */
  lemma HeldPortFree(r: Reg, held: map<string, Listener>, h: string)
    requires TcpInv(r, held) && h in held
    ensures forall id :: !HoldsPort(r, id, held[h].port)
    ensures held[h].port !in r.byPort
  {
    var p := held[h].port;
    assert HeldBy(held, h, held[h]);
    forall id | id in r.byID
      ensures p !in TcpPorts(r.byID[id])
    {
      forall t | t in r.byID[id] && t.kind.TCP?
        ensures t.remotePort != p
      {
        assert TunnelOk(t);
        assert HoldsSocket(r, id, t.tcpLn.value);
      }
    }
    assert p in r.byPort ==> RoutesPort(r, p, r.byPort[p]);
  }

  /** What registering, at once for the port and the socket, changes. */
  lemma RegisterTCPHolds(r: Reg, h: string, t: Tunnel)
    requires h in r.byID && t.kind.TCP? && TunnelOk(t)
    ensures var q := RegisterTCP(r, h, t);
            && (forall i, p :: HoldsPort(q, i, p) <==> HoldsPort(r, i, p) || (i == h && p == t.remotePort))
            && (forall i, k :: HoldsSocket(q, i, k) <==> HoldsSocket(r, i, k) || (i == h && k == t.tcpLn.value))
  {
    AppendKeys(r.byID[h], t);
    SingleKeys(t);
  }

  lemma RegisterTCPTcp(r: Reg, held: map<string, Listener>, h: string, t: Tunnel)
    requires TcpInv(r, held) && h in held && h in r.byID
    requires t.kind.TCP? && TunnelOk(t) && t.tcpLn.value == held[h]
    ensures TcpInv(RegisterTCP(r, h, t), held - {h})
  {
    var q, held', l := RegisterTCP(r, h, t), held - {h}, held[h];
    HeldPortFree(r, held, h);
    RegisterTCPHolds(r, h, t);
    assert HeldBy(held, h, l);
    assert forall g, k :: HeldBy(held', g, k) <==> HeldBy(held, g, k) && g != h;
    assert PortsExact(q) by {
      assert forall i, p :: RoutesPort(q, p, i) <==> RoutesPort(r, p, i) || (i == h && p == t.remotePort);
    }
    assert SocketsOwned(q, held') by {
      assert HoldsSocket(q, h, l);
      OwnersCarryOver(r, held, q, held');
    }
    assert l !in Sockets(r.byID[h]) by {
      assert !HoldsSocket(r, h, l);
    }
  }

  lemma RemoveClientTcp(r: Reg, held: map<string, Listener>, id: string)
    requires TcpInv(r, held)
    ensures TcpInv(RemoveClient(r, id), held)
  {
    if id in r.byID {
      var q := RemoveClient(r, id);
      assert forall i, p :: HoldsPort(q, i, p) <==> HoldsPort(r, i, p) && i != id;
      assert forall i, k :: HoldsSocket(q, i, k) <==> HoldsSocket(r, i, k) && i != id;
      assert forall k :: k in q.open <==> k in r.open && !HoldsSocket(r, id, k);
      assert forall i, p :: RoutesPort(q, p, i) <==> RoutesPort(r, p, i) && !HoldsPort(r, id, p);
      OwnersCarryOver(r, held, q, held);
    }
  }

  /** What removing tunnel `i` of a client's list changes. */
  lemma RemoveTunnelHolds(r: Reg, held: map<string, Listener>, id: string, i: nat)
    requires TcpInv(r, held) && id in r.byID && i < |r.byID[id]|
    ensures var q := r.(byID := r.byID[id := Without(r.byID[id], i)]);
            && ListsOk(q)
            && (forall j, p :: HoldsPort(q, j, p) <==> HoldsPort(r, j, p) && !(j == id && p in TcpPorts([r.byID[id][i]])))
            && (forall j, k :: HoldsSocket(q, j, k) <==> HoldsSocket(r, j, k) && !(j == id && k in Sockets([r.byID[id][i]])))
    ensures forall p :: p in TcpPorts([r.byID[id][i]]) ==> HoldsPort(r, id, p)
    ensures forall k :: k in Sockets([r.byID[id][i]]) ==> HoldsSocket(r, id, k)
  {
    var ts := r.byID[id];
    assert forall k :: k in Sockets(ts) ==> HoldsSocket(r, id, k);
    WithoutElements(ts, i);
    WithoutKeys(ts, i);
    WithoutPorts(ts, i, r.open);
  }

  lemma RemoveTunnelTcp(r: Reg, held: map<string, Listener>, id: string, name: string)
    requires TcpInv(r, held)
    ensures TcpInv(RemoveTunnel(r, id, name), held)
  {
    if HasTunnel(r, id, name) {
      var i := IndexOfName(r.byID[id], name);
      var ts := [r.byID[id][i]];
      var q := RemoveTunnel(r, id, name);
      RemoveTunnelHolds(r, held, id, i);
      assert forall j, p :: HoldsPort(q, j, p) <==> HoldsPort(r, j, p) && !(j == id && p in TcpPorts(ts));
      assert forall j, k :: HoldsSocket(q, j, k) <==> HoldsSocket(r, j, k) && !(j == id && k in Sockets(ts));
      assert PortsExact(q) by {
        assert forall j, p :: RoutesPort(q, p, j) <==> RoutesPort(r, p, j) && p !in TcpPorts(ts);
      }
      OwnersCarryOver(r, held, q, held);
    }
  }

  // ----- subdomain entries, under any interleaving

  lemma AddClientSound(r: Reg, id: string)
    requires HttpSound(r) && id !in r.byID
    ensures HttpSound(AddClient(r, id))
  {
    assert forall j, s :: HoldsHttp(r, j, s) ==> HoldsHttp(AddClient(r, id), j, s);
    assert forall j, s :: Routes(AddClient(r, id), s, j) <==> Routes(r, s, j);
  }

  lemma ListenSound(r: Reg, l: Listener)
    requires HttpSound(r)
    ensures HttpSound(r.(open := r.open + {l}))
  {
    assert forall j, s :: HoldsHttp(r.(open := r.open + {l}), j, s) <==> HoldsHttp(r, j, s);
    assert forall j, s :: Routes(r.(open := r.open + {l}), s, j) <==> Routes(r, s, j);
  }

  lemma RegisterHTTPSound(r: Reg, id: string, t: Tunnel)
    requires HttpSound(r) && id in r.byID && t.kind.HTTP?
    ensures HttpSound(RegisterHTTP(r, id, t))
  {
    AppendKeys(r.byID[id], t);
    SingleKeys(t);
    var q := RegisterHTTP(r, id, t);
    assert forall j, s :: HoldsHttp(q, j, s) <==> HoldsHttp(r, j, s) || (j == id && s == t.subdomain);
    assert forall j, s :: Routes(q, s, j) ==> Routes(r, s, j) || (j == id && s == t.subdomain);
  }

  lemma RegisterTCPSound(r: Reg, id: string, t: Tunnel)
    requires HttpSound(r) && id in r.byID && t.kind.TCP?
    ensures HttpSound(RegisterTCP(r, id, t))
  {
    AppendKeys(r.byID[id], t);
    var q := RegisterTCP(r, id, t);
    assert forall j, s :: HoldsHttp(r, j, s) ==> HoldsHttp(q, j, s);
    assert forall j, s :: Routes(q, s, j) <==> Routes(r, s, j);
  }

  lemma RemoveClientSound(r: Reg, id: string)
    requires HttpSound(r)
    ensures HttpSound(RemoveClient(r, id))
  {
    var q := RemoveClient(r, id);
    assert forall j, s :: HoldsHttp(q, j, s) <==> HoldsHttp(r, j, s) && j != id;
    assert forall j, s :: Routes(q, s, j) <==> Routes(r, s, j) && !HoldsHttp(r, id, s);
  }

  lemma RemoveTunnelSound(r: Reg, id: string, name: string)
    requires HttpSound(r)
    ensures HttpSound(RemoveTunnel(r, id, name))
  {
    if HasTunnel(r, id, name) {
      var q, t := RemoveTunnel(r, id, name), r.byID[id][IndexOfName(r.byID[id], name)];
      WithoutKeys(r.byID[id], IndexOfName(r.byID[id], name));
      assert forall j, s :: HoldsHttp(r, j, s) && s !in HttpKeys([t]) ==> HoldsHttp(q, j, s);
      assert forall j, s :: Routes(q, s, j) <==> Routes(r, s, j) && s !in HttpKeys([t]);
    }
  }

  lemma SetDirRoutes(r: Reg, id: string, name: string, dir: string)
    ensures var q := SetDir(r, id, name, dir);
            && (forall j, s :: HoldsHttp(q, j, s) <==> HoldsHttp(r, j, s))
            && (forall j, s :: Routes(q, s, j) <==> Routes(r, s, j))
  {
    if HasTunnel(r, id, name) {
      SetDirKeys(r.byID[id], IndexOfName(r.byID[id], name), dir);
    }
  }

  lemma SetDirSound(r: Reg, id: string, name: string, dir: string)
    requires HttpSound(r)
    ensures HttpSound(SetDir(r, id, name, dir))
  {
    SetDirRoutes(r, id, name, dir);
  }

  /** Every map entry that leads to a client is accounted for by that client's tunnels. */
  lemma NoneDangling(r: Reg, id: string)
    requires HttpSound(r) && PortsExact(r) && id in r.byID
    ensures forall k :: k in r.bySubdomain && r.bySubdomain[k] == id ==> k in HttpKeys(r.byID[id])
    ensures forall p :: p in r.byPort && r.byPort[p] == id ==> p in TcpPorts(r.byID[id])
  {
    forall k | k in r.bySubdomain && r.bySubdomain[k] == id
      ensures k in HttpKeys(r.byID[id])
    {
      assert Routes(r, k, id);
      assert HoldsHttp(r, id, k);
    }
    forall p | p in r.byPort && r.byPort[p] == id
      ensures p in TcpPorts(r.byID[id])
    {
      assert RoutesPort(r, p, id);
      assert HoldsPort(r, id, p);
    }
  }

  // ----- subdomain entries, when the taken-check and the registration are one step

  lemma RegisterHTTPExact(r: Reg, id: string, t: Tunnel)
    requires HttpInv(r) && id in r.byID && t.kind.HTTP? && t.subdomain !in r.bySubdomain
    ensures HttpInv(RegisterHTTP(r, id, t))
  {
    var q, ts := RegisterHTTP(r, id, t), r.byID[id];
    AppendKeys(ts, t);
    SingleKeys(t);
    assert forall j :: !Routes(r, t.subdomain, j);
    assert forall j :: !HoldsHttp(r, j, t.subdomain);
    assert forall j, s :: HoldsHttp(q, j, s) <==> HoldsHttp(r, j, s) || (j == id && s == t.subdomain);
    assert forall j, s :: Routes(q, s, j) <==> Routes(r, s, j) || (j == id && s == t.subdomain);
    forall i | 0 <= i < |ts| && ts[i].kind.HTTP?
      ensures ts[i].subdomain != t.subdomain
    {
      assert HoldsHttp(r, id, ts[i].subdomain);
    }
  }

  lemma RegisterTCPExact(r: Reg, id: string, t: Tunnel)
    requires HttpInv(r) && id in r.byID && t.kind.TCP?
    ensures HttpInv(RegisterTCP(r, id, t))
  {
    var q := RegisterTCP(r, id, t);
    AppendKeys(r.byID[id], t);
    SingleKeys(t);
    assert forall j, s :: HoldsHttp(q, j, s) <==> HoldsHttp(r, j, s);
    assert forall j, s :: Routes(q, s, j) <==> Routes(r, s, j);
  }

  lemma RemoveClientExact(r: Reg, id: string)
    requires HttpInv(r)
    ensures HttpInv(RemoveClient(r, id))
  {
    var q := RemoveClient(r, id);
    assert forall j, s :: HoldsHttp(q, j, s) <==> HoldsHttp(r, j, s) && j != id;
    assert forall j, s :: Routes(q, s, j) <==> Routes(r, s, j) && !HoldsHttp(r, id, s);
  }

  lemma RemoveTunnelExact(r: Reg, id: string, name: string)
    requires HttpInv(r)
    ensures HttpInv(RemoveTunnel(r, id, name))
  {
    if HasTunnel(r, id, name) {
      var ts, i := r.byID[id], IndexOfName(r.byID[id], name);
      var q, keys := RemoveTunnel(r, id, name), HttpKeys([ts[i]]);
      WithoutKeys(ts, i);
      assert forall s :: s in keys ==> HoldsHttp(r, id, s);
      assert forall j, s :: HoldsHttp(q, j, s) <==> HoldsHttp(r, j, s) && !(j == id && s in keys);
      assert forall j, s :: Routes(q, s, j) <==> Routes(r, s, j) && s !in keys;
    }
  }

  lemma AddClientExact(r: Reg, id: string)
    requires HttpInv(r) && id !in r.byID
    ensures HttpInv(AddClient(r, id))
  {
    assert forall j, s :: HoldsHttp(AddClient(r, id), j, s) <==> HoldsHttp(r, j, s);
    assert forall j, s :: Routes(AddClient(r, id), s, j) <==> Routes(r, s, j);
  }

  lemma SetDirExact(r: Reg, id: string, name: string, dir: string)
    requires HttpInv(r)
    ensures HttpInv(SetDir(r, id, name, dir))
  {
    SetDirRoutes(r, id, name, dir);
  }

  /** Opening a socket changes no map and no list. */
  lemma OpenExact(r: Reg, q: Reg)
    requires HttpInv(r) && q == r.(open := q.open)
    ensures HttpInv(q)
  {
    assert forall j, s :: HoldsHttp(q, j, s) <==> HoldsHttp(r, j, s);
    assert forall j, s :: Routes(q, s, j) <==> Routes(r, s, j);
  }
}
