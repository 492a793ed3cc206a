/**
  What each critical section of the registry does, said of the maps, the lists and the sockets before
  and after it, and of nothing else: what appears, what goes, and that the rest stays.
*/
module RegistryEffects {
  import opened Common
  import opened RegistryModel
  import opened RegistryFacts

  /** n is m with k leading to v. */
  ghost predicate Added<K(!new), V>(m: map<K, V>, n: map<K, V>, k: K, v: V) {
    && k in n && n[k] == v
    && forall j :: j != k ==> (j in m <==> j in n) && (j in m ==> m[j] == n[j])
  }

  /** n is m without the keys of ks. */
  ghost predicate Dropped<K(!new), V>(m: map<K, V>, n: map<K, V>, ks: set<K>) {
    && (forall k :: k in n <==> k in m && k !in ks)
    && forall k :: k in n ==> m[k] == n[k]
  }

  lemma AddClientDoes(r: Reg, id: string)
    ensures var q := AddClient(r, id);
            && Added(r.byID, q.byID, id, [])
            && q.bySubdomain == r.bySubdomain && q.byPort == r.byPort && q.open == r.open
  {
  }

  lemma RegisterHTTPDoes(r: Reg, id: string, t: Tunnel)
    requires id in r.byID
    ensures var q := RegisterHTTP(r, id, t);
            && Added(r.byID, q.byID, id, r.byID[id] + [t]) && Added(r.bySubdomain, q.bySubdomain, t.subdomain, id)
            && q.byPort == r.byPort && q.open == r.open
  {
  }

  lemma RegisterTCPDoes(r: Reg, id: string, t: Tunnel)
    requires id in r.byID
    ensures var q := RegisterTCP(r, id, t);
            && Added(r.byID, q.byID, id, r.byID[id] + [t]) && Added(r.byPort, q.byPort, t.remotePort, id)
            && q.bySubdomain == r.bySubdomain && q.open == r.open
  {
  }

  /** Some tunnel of the list is an HTTP one on k. */
  predicate OnSubdomain(ts: seq<Tunnel>, k: string) {
    exists i :: 0 <= i < |ts| && ts[i].kind.HTTP? && ts[i].subdomain == k
  }

  predicate OnPort(ts: seq<Tunnel>, p: int) {
    exists i :: 0 <= i < |ts| && ts[i].kind.TCP? && ts[i].remotePort == p
  }

  predicate OnSocket(ts: seq<Tunnel>, l: Listener) {
    exists i :: 0 <= i < |ts| && ts[i].kind.TCP? && ts[i].tcpLn == Some(l)
  }

  /** The client leaves with all that its tunnels held; nobody else's list changes. */
  lemma RemoveClientDoes(r: Reg, id: string)
    ensures var q := RemoveClient(r, id);
            && Dropped(r.byID, q.byID, {id})
            && (id !in r.byID ==> q == r)
            && (id in r.byID ==>
                  && (forall k :: k in q.bySubdomain <==> k in r.bySubdomain && !OnSubdomain(r.byID[id], k))
                  && (forall p :: p in q.byPort <==> p in r.byPort && !OnPort(r.byID[id], p))
                  && (forall l :: l in q.open <==> l in r.open && !OnSocket(r.byID[id], l))
                  && (forall k :: k in q.bySubdomain ==> q.bySubdomain[k] == r.bySubdomain[k])
                  && (forall p :: p in q.byPort ==> q.byPort[p] == r.byPort[p]))
  {
    if id in r.byID {
      HeldBySome(r.byID[id]);
      hide HttpKeys, TcpPorts, Sockets;
    }
  }

  lemma HeldBySome(ts: seq<Tunnel>)
    ensures forall k :: k in HttpKeys(ts) <==> OnSubdomain(ts, k)
    ensures forall p :: p in TcpPorts(ts) <==> OnPort(ts, p)
    ensures forall l :: l in Sockets(ts) <==> OnSocket(ts, l)
  {
    assert forall i :: 0 <= i < |ts| ==> ts[i] in ts;
    forall t | t in ts
      ensures exists i :: 0 <= i < |ts| && ts[i] == t
    {
    }
  }

  /** i is the position of the first tunnel of this name. */
  predicate FirstNamed(ts: seq<Tunnel>, name: string, i: nat) {
    i < |ts| && ts[i].name == name && forall j :: 0 <= j < i ==> ts[j].name != name
  }

  /** From r to q the tunnel at position i of the client's list goes, with its map entry and its socket. */
  ghost predicate CutsOut(r: Reg, q: Reg, id: string, i: nat)
    requires id in r.byID && i < |r.byID[id]|
  {
    var ts := r.byID[id];
    && Added(r.byID, q.byID, id, ts[..i] + ts[i + 1..])
    && Dropped(r.bySubdomain, q.bySubdomain, if ts[i].kind.HTTP? then {ts[i].subdomain} else {})
    && Dropped(r.byPort, q.byPort, if ts[i].kind.TCP? then {ts[i].remotePort} else {})
    && (forall l :: l in q.open <==> l in r.open && !(ts[i].kind.TCP? && ts[i].tcpLn == Some(l)))
  }

  /**
    Removing by name takes r to q: the client's first tunnel of this name goes, of whatever kind, and is
    reported; without one nothing changes.
  */
  ghost predicate Removal(r: Reg, q: Reg, id: string, name: string, removed: bool) {
    && (removed <==> id in r.byID && exists i :: FirstNamed(r.byID[id], name, i))
    && (forall i :: id in r.byID && FirstNamed(r.byID[id], name, i) ==> CutsOut(r, q, id, i))
    && (!removed ==> q == r)
  }

  lemma RemoveTunnelDoes(r: Reg, id: string, name: string)
    ensures Removal(r, RemoveTunnel(r, id, name), id, name, HasTunnel(r, id, name))
  {
    hide HttpKeys, TcpPorts, Sockets, IndexOfName;
    if HasTunnel(r, id, name) {
      var i := IndexOfName(r.byID[id], name);
      SingleKeys(r.byID[id][i]);
      assert FirstNamed(r.byID[id], name, i);
      assert CutsOut(r, RemoveTunnel(r, id, name), id, i);
    }
  }

  /** From r to q the tunnel at position i of the client's list gets the directory. */
  ghost predicate GivesDir(r: Reg, q: Reg, id: string, i: nat, dir: string)
    requires id in r.byID && i < |r.byID[id]|
  {
    var t := r.byID[id][i];
    && Added(r.byID, q.byID, id,
             r.byID[id][i := Tunnel(t.name, t.kind, t.subdomain, t.remotePort, t.localAddr, dir != "", dir, t.tcpLn)])
    && q.bySubdomain == r.bySubdomain && q.byPort == r.byPort && q.open == r.open
  }

  /** Setting a directory by name takes r to q: the client's first tunnel of this name gets it. */
  ghost predicate NewDir(r: Reg, q: Reg, id: string, name: string, dir: string, found: bool) {
    && (found <==> id in r.byID && exists i :: FirstNamed(r.byID[id], name, i))
    && (forall i :: id in r.byID && FirstNamed(r.byID[id], name, i) ==> GivesDir(r, q, id, i, dir))
    && (!found ==> q == r)
  }

  lemma SetDirDoes(r: Reg, id: string, name: string, dir: string)
    ensures NewDir(r, SetDir(r, id, name, dir), id, name, dir, HasTunnel(r, id, name))
  {
    hide IndexOfName;
    if HasTunnel(r, id, name) {
      var i := IndexOfName(r.byID[id], name);
      assert FirstNamed(r.byID[id], name, i);
      assert GivesDir(r, SetDir(r, id, name, dir), id, i, dir);
    }
  }
}
