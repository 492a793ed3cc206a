/**
  The registry as the server keeps it: client entries that are updated in place, and three maps that
  point to them. Each method is one critical section and computes the function of RegistryModel that
  Sessions and Serial reason about.
*/
module Registry {
  import opened Common
  import M = RegistryModel
  import Counts
  import GoStrings
  import RegistryFacts
  import E = RegistryEffects

  type Tunnel = M.Tunnel
  type Listener = M.Listener

  /** The operating system's side of listening sockets. */
  class Host {
    var open: set<Listener>
    var serial: nat

    constructor ()
      ensures open == {} && serial == 0
    {
      open, serial := {}, 0;
    }

    /** A port goes to one listener at a time; `granted` is false when listening fails for another reason. */
    method Listen(port: int, granted: bool) returns (ln: Option<Listener>)
      modifies this
      ensures granted && (forall l :: l in old(open) ==> l.port != port) ==>
                ln == Some(M.Listener(port, old(serial))) && open == old(open) + {ln.value} && serial == old(serial) + 1
      ensures !granted || (exists l :: l in old(open) && l.port == port) ==>
                ln == None && open == old(open) && serial == old(serial)
    {
      ln := None;
      if granted && forall l :: l in open ==> l.port != port {
        var l := M.Listener(port, serial);
        open, serial := open + {l}, serial + 1;
        ln := Some(l);
      }
    }

    method Close(ln: Listener)
      modifies `open
      ensures open == old(open) - {ln}
    {
      open := open - {ln};
    }
  }

  class ClientEntry {
    const id: string
    var tunnels: seq<Tunnel>

    constructor (id: string)
      ensures this.id == id && tunnels == []
    {
      this.id := id;
      tunnels := [];
    }
  }

  datatype TunnelSnapshot = TunnelSnapshot(name: string, kind: M.Kind, endpoint: string, localAddr: string,
                                           canPromote: bool, dir: string)

  datatype ClientSnapshot = ClientSnapshot(id: string, tunnels: seq<TunnelSnapshot>)

  datatype Totals = Totals(clients: nat, http: nat, tcp: nat)

  function SnapshotOf(t: Tunnel): TunnelSnapshot {
    var endpoint := if t.kind.TCP? then ":" + GoStrings.Itoa(t.remotePort) else t.subdomain;
    TunnelSnapshot(t.name, t.kind, endpoint, t.localAddr, t.hasDir, t.dir)
  }

  /** What the dashboard shows of a tunnel, field by field. */
  predicate Shows(s: TunnelSnapshot, t: Tunnel) {
    && s.name == t.name && s.localAddr == t.localAddr && s.dir == t.dir
    && (s.kind.HTTP? <==> t.kind.HTTP?) && (s.canPromote <==> t.hasDir)
    && (t.kind.HTTP? ==> s.endpoint == t.subdomain)
    && (t.kind.TCP? ==> s.endpoint != "" && s.endpoint[0] == ':' && s.endpoint[1..] == GoStrings.Itoa(t.remotePort))
  }

  function SnapshotsOf(ts: seq<Tunnel>): seq<TunnelSnapshot> {
    seq(|ts|, i requires 0 <= i < |ts| => SnapshotOf(ts[i]))
  }

  /** An entry is stored under its own id, and the other two maps point to entries stored there. */
  ghost predicate Linked(byID: map<string, ClientEntry>, bySubdomain: map<string, ClientEntry>,
                         byPort: map<int, ClientEntry>)
  {
    && (forall id :: id in byID ==> byID[id].id == id)
    && (forall k :: k in bySubdomain ==> bySubdomain[k].id in byID && byID[bySubdomain[k].id] == bySubdomain[k])
    && (forall p :: p in byPort ==> byPort[p].id in byID && byID[byPort[p].id] == byPort[p])
  }

  ghost function Ids<K>(m: map<K, ClientEntry>): map<K, string> {
    map k | k in m :: m[k].id
  }

  lemma IdsMinus<K>(m: map<K, ClientEntry>, keys: set<K>)
    ensures Ids(m - keys) == Ids(m) - keys
  {
  }

  lemma IdsUpdate<K>(m: map<K, ClientEntry>, k: K, e: ClientEntry)
    ensures Ids(m[k := e]) == Ids(m)[k := e.id]
  {
  }

  lemma MinusMinus<K, V>(m: map<K, V>, a: set<K>, b: set<K>)
    ensures (m - a) - b == m - (a + b)
  {
  }

  class Registry {
    var bySubdomain: map<string, ClientEntry>
    var byPort: map<int, ClientEntry>
    var byID: map<string, ClientEntry>
    const host: Host

    ghost predicate Valid()
      reads this
    {
      Linked(byID, bySubdomain, byPort)
    }

    ghost function View(): M.Reg
      reads this, byID.Values, host
      requires Valid()
    {
      M.Reg(map id | id in byID :: byID[id].tunnels, Ids(bySubdomain), Ids(byPort), host.open)
    }

    constructor (host: Host)
      ensures Valid() && this.host == host
      ensures byID == map[] && bySubdomain == map[] && byPort == map[]
    {
      this.host := host;
      bySubdomain, byPort, byID := map[], map[], map[];
    }

    method AddClient(entry: ClientEntry)
      requires Valid() && entry.id !in byID && entry.tunnels == []
      modifies this
      ensures Valid() && View() == M.AddClient(old(View()), entry.id)
      ensures byID == old(byID)[entry.id := entry]
    {
      byID := byID[entry.id := entry];
    }

    /** The loop of removeClient: drops the tunnels' index entries and closes their sockets. */
    method ReleaseAll(tunnels: seq<Tunnel>)
      modifies this`bySubdomain, this`byPort, host`open
      ensures bySubdomain == old(bySubdomain) - M.HttpKeys(tunnels)
      ensures byPort == old(byPort) - M.TcpPorts(tunnels)
      ensures host.open == old(host.open) - M.Sockets(tunnels)
    {
      var i := 0;
      while i < |tunnels|
        invariant 0 <= i <= |tunnels|
        invariant bySubdomain == old(bySubdomain) - M.HttpKeys(tunnels[..i])
        invariant byPort == old(byPort) - M.TcpPorts(tunnels[..i])
        invariant host.open == old(host.open) - M.Sockets(tunnels[..i])
      {
        hide M.HttpKeys, M.TcpPorts, M.Sockets;
        var t := tunnels[i];
        RegistryFacts.AppendKeys(tunnels[..i], t);
        RegistryFacts.SingleKeys(t);
        assert tunnels[..i + 1] == tunnels[..i] + [t];
        MinusMinus(old(bySubdomain), M.HttpKeys(tunnels[..i]), M.HttpKeys([t]));
        MinusMinus(old(byPort), M.TcpPorts(tunnels[..i]), M.TcpPorts([t]));
        if t.kind.HTTP? {
          bySubdomain := bySubdomain - {t.subdomain};
        } else {
          byPort := byPort - {t.remotePort};
          if t.tcpLn.Some? {
            host.Close(t.tcpLn.value);
          }
        }
        i := i + 1;
      }
      assert tunnels[..i] == tunnels;
    }

    /** Every map entry that leads to the client is accounted for by its tunnels, so none is left dangling. */
    method RemoveClient(id: string)
      requires Valid() && M.HttpSound(View()) && M.PortsExact(View())
      modifies this, host`open
      ensures Valid() && View() == M.RemoveClient(old(View()), id)
    {
      hide M.HttpSound, M.PortsExact, M.HttpKeys, M.TcpPorts, M.Sockets;
      ghost var r := View();
      if id !in byID {
        return;
      }
      RegistryFacts.NoneDangling(r, id);
      var tunnels := byID[id].tunnels;
      IdsMinus(bySubdomain, M.HttpKeys(tunnels));
      IdsMinus(byPort, M.TcpPorts(tunnels));
      ReleaseAll(tunnels);
      byID := byID - {id};
      assert View().byID == M.RemoveClient(r, id).byID;
    }

    /** The client is known: only its own handler removes it, after its last registration. */
    method RegisterHTTP(clientID: string, subdomain: string, te: Tunnel)
      requires Valid() && clientID in byID && te.kind.HTTP? && te.subdomain == subdomain
      modifies this`bySubdomain, byID[clientID]
      ensures Valid() && View() == M.RegisterHTTP(old(View()), clientID, te)
    {
      var entry := byID[clientID];
      IdsUpdate(bySubdomain, subdomain, entry);
      bySubdomain := bySubdomain[subdomain := entry];
      entry.tunnels := entry.tunnels + [te];
      assert View().byID == M.RegisterHTTP(old(View()), clientID, te).byID;
    }

    method RegisterTCP(clientID: string, port: int, te: Tunnel)
      requires Valid() && clientID in byID && te.kind.TCP? && te.remotePort == port
      modifies this`byPort, byID[clientID]
      ensures Valid() && View() == M.RegisterTCP(old(View()), clientID, te)
    {
      var entry := byID[clientID];
      IdsUpdate(byPort, port, entry);
      byPort := byPort[port := entry];
      entry.tunnels := entry.tunnels + [te];
      assert View().byID == M.RegisterTCP(old(View()), clientID, te).byID;
    }

    method LookupHTTP(subdomain: string) returns (entry: ClientEntry?)
      requires Valid()
      ensures entry == null <==> subdomain !in View().bySubdomain
      ensures entry != null ==> View().bySubdomain[subdomain] == entry.id && entry.id in byID && byID[entry.id] == entry
    {
      entry := if subdomain in bySubdomain then bySubdomain[subdomain] else null;
    }

    method IsSubdomainTaken(subdomain: string) returns (taken: bool)
      requires Valid()
      ensures taken <==> subdomain in View().bySubdomain
    {
      taken := subdomain in bySubdomain;
    }

    method IsPortTaken(port: int) returns (taken: bool)
      requires Valid()
      ensures taken <==> port in View().byPort
    {
      taken := port in byPort;
    }

    /** Removes the client's first tunnel of this name, and says whether there was one. */
    method RemoveTunnelByName(clientID: string, tunnelName: string) returns (removed: bool)
      requires Valid()
      modifies this`bySubdomain, this`byPort, host`open, if clientID in byID then {byID[clientID]} else {}
      ensures Valid() && View() == M.RemoveTunnel(old(View()), clientID, tunnelName)
      ensures E.Removal(old(View()), View(), clientID, tunnelName, removed)
    {
      hide E.Removal;
      E.RemoveTunnelDoes(View(), clientID, tunnelName);
      if clientID !in byID {
        return false;
      }
      ghost var r := View();
      var entry := byID[clientID];
      var i := 0;
      while i < |entry.tunnels|
        invariant 0 <= i <= |entry.tunnels|
        invariant unchanged(this) && unchanged(host) && unchanged(entry)
        invariant forall j :: 0 <= j < i ==> entry.tunnels[j].name != tunnelName
      {
        var t := entry.tunnels[i];
        if t.name == tunnelName {
          assert M.IndexOfName(r.byID[clientID], tunnelName) == i;
          Release(t);
          entry.tunnels := entry.tunnels[..i] + entry.tunnels[i + 1..];
          assert View().byID == M.RemoveTunnel(r, clientID, tunnelName).byID;
          return true;
        }
        i := i + 1;
      }
      return false;
    }

    /** The branch of removeTunnelByName that drops one tunnel's index entry and closes its socket. */
    method Release(t: Tunnel)
      requires Valid()
      modifies this`bySubdomain, this`byPort, host`open
      ensures Valid() && View() == M.Release(old(View()), [t])
    {
      hide M.HttpKeys, M.TcpPorts, M.Sockets;
      RegistryFacts.SingleKeys(t);
      IdsMinus(bySubdomain, M.HttpKeys([t]));
      IdsMinus(byPort, M.TcpPorts([t]));
      if t.kind.HTTP? {
        bySubdomain := bySubdomain - {t.subdomain};
      } else {
        byPort := byPort - {t.remotePort};
        if t.tcpLn.Some? {
          host.Close(t.tcpLn.value);
        }
      }
    }

    /** handleSetTunnelDir: changes the first tunnel of this name in place. */
    method SetTunnelDir(clientID: string, tunnelName: string, dir: string) returns (found: bool)
      requires Valid()
      modifies if clientID in byID then {byID[clientID]} else {}
      ensures Valid() && View() == M.SetDir(old(View()), clientID, tunnelName, dir)
      ensures E.NewDir(old(View()), View(), clientID, tunnelName, dir, found)
    {
      hide E.NewDir;
      E.SetDirDoes(View(), clientID, tunnelName, dir);
      if clientID !in byID {
        return false;
      }
      ghost var r := View();
      var entry := byID[clientID];
      var i := 0;
      while i < |entry.tunnels|
        invariant 0 <= i <= |entry.tunnels|
        invariant unchanged(entry)
        invariant forall j :: 0 <= j < i ==> entry.tunnels[j].name != tunnelName
      {
        if entry.tunnels[i].name == tunnelName {
          assert M.IndexOfName(r.byID[clientID], tunnelName) == i;
          entry.tunnels := entry.tunnels[i := entry.tunnels[i].(dir := dir, hasDir := dir != "")];
          assert View().byID == M.SetDir(r, clientID, tunnelName, dir).byID;
          return true;
        }
        i := i + 1;
      }
      return false;
    }

    /** A copy of every client's tunnels, the clients in the arbitrary order of a map traversal. */
    method Snapshot() returns (out: seq<ClientSnapshot>)
      requires Valid()
      ensures Counts.Enumerates(View(), IdsOf(out))
      ensures forall i :: 0 <= i < |out| ==> out[i].id in byID && out[i].tunnels == SnapshotsOf(byID[out[i].id].tunnels)
      ensures forall i, k :: 0 <= i < |out| && 0 <= k < |out[i].tunnels| ==>
                k < |byID[out[i].id].tunnels| && Shows(out[i].tunnels[k], byID[out[i].id].tunnels[k])
    {
      out := [];
      ghost var ids: seq<string> := [];
      var rest := byID.Keys;
      while rest != {}
        invariant rest <= byID.Keys
        invariant |ids| == |out| && forall i :: 0 <= i < |ids| ==> ids[i] == out[i].id
        invariant forall id :: id in ids <==> id in byID.Keys - rest
        invariant forall i, j :: 0 <= i < j < |ids| ==> ids[i] != ids[j]
        invariant forall i :: 0 <= i < |out| ==>
                    out[i].id in byID && out[i].tunnels == SnapshotsOf(byID[out[i].id].tunnels)
        decreases rest
      {
        var id :| id in rest;
        var e := byID[id];
        var ts: seq<TunnelSnapshot> := [];
        for k := 0 to |e.tunnels|
          invariant ts == SnapshotsOf(e.tunnels[..k])
        {
          ts := ts + [SnapshotOf(e.tunnels[k])];
          assert e.tunnels[..k + 1] == e.tunnels[..k] + [e.tunnels[k]];
        }
        assert e.tunnels[..|e.tunnels|] == e.tunnels;
        assert forall i :: 0 <= i < |ids| ==> ids[i] in ids;
        out, ids := out + [ClientSnapshot(id, ts)], ids + [id];
        rest := rest - {id};
      }
      assert IdsOf(out) == ids;
    }

    /**
      The totals of the dashboard payload, counted from the tunnel lists. In every state whose maps are
      exact they are the sizes of the maps, which the metrics endpoint reports.
    */
    method DashboardTotals() returns (totals: Totals, ghost order: seq<string>)
      requires Valid()
      ensures Counts.Enumerates(View(), order)
      ensures totals == Totals(|order|, Counts.CountOver(View(), order, M.HTTP), Counts.CountOver(View(), order, M.TCP))
      ensures forall held :: M.TcpInv(View(), held) && M.HttpInv(View()) ==>
                totals == Totals(|byID|, |bySubdomain|, |byPort|)
    {
      hide M.TcpInv, M.HttpInv;
      var snaps := Snapshot();
      var http, tcp := CountAll(snaps, View());
      order := IdsOf(snaps);
      totals := Totals(|snaps|, http, tcp);
      forall held | M.TcpInv(View(), held) && M.HttpInv(View())
        ensures totals == Totals(|byID|, |bySubdomain|, |byPort|)
      {
        CountsAreSizes(held, order);
      }
    }

    lemma CountsAreSizes(held: map<string, Listener>, ids: seq<string>)
      requires Valid() && M.TcpInv(View(), held) && M.HttpInv(View()) && Counts.Enumerates(View(), ids)
      ensures |ids| == |byID|
      ensures Counts.CountOver(View(), ids, M.HTTP) == |bySubdomain|
      ensures Counts.CountOver(View(), ids, M.TCP) == |byPort|
    {
      hide M.TcpInv, M.HttpInv;
      Counts.MapSizesCount(View(), held, ids);
      SizeOfIds(bySubdomain);
      SizeOfIds(byPort);
      assert View().byID.Keys == byID.Keys;
    }
  }

  /** The dashboard's count over all clients. */
  method CountAll(snaps: seq<ClientSnapshot>, ghost r: M.Reg) returns (http: nat, tcp: nat)
    requires forall i :: 0 <= i < |snaps| ==> snaps[i].id in r.byID && snaps[i].tunnels == SnapshotsOf(r.byID[snaps[i].id])
    ensures http == Counts.CountOver(r, IdsOf(snaps), M.HTTP) && tcp == Counts.CountOver(r, IdsOf(snaps), M.TCP)
  {
    http, tcp := 0, 0;
    ghost var ids := IdsOf(snaps);
    hide SnapshotsOf, Counts.CountIn;
    for i := 0 to |snaps|
      invariant http == Counts.CountOver(r, ids[..i], M.HTTP) && tcp == Counts.CountOver(r, ids[..i], M.TCP)
    {
      var h, t := CountKinds(snaps[i].tunnels, r.byID[ids[i]]);
      http, tcp := http + h, tcp + t;
      Counts.CountNext(r, ids, i, M.HTTP);
      Counts.CountNext(r, ids, i, M.TCP);
    }
    assert ids[..|ids|] == ids;
  }

  /** The inner loop of the dashboard's count: one client's tunnels. */
  method CountKinds(ts: seq<TunnelSnapshot>, ghost of: seq<Tunnel>) returns (http: nat, tcp: nat)
    requires ts == SnapshotsOf(of)
    ensures http == Counts.CountIn(of, M.HTTP) && tcp == Counts.CountIn(of, M.TCP)
  {
    http, tcp := 0, 0;
    for k := 0 to |ts|
      invariant http == Counts.CountIn(of[..k], M.HTTP) && tcp == Counts.CountIn(of[..k], M.TCP)
    {
      if ts[k].kind.HTTP? {
        http := http + 1;
      } else {
        tcp := tcp + 1;
      }
      assert of[..k + 1][..k] == of[..k];
    }
    assert of[..|of|] == of;
  }

  function IdsOf(out: seq<ClientSnapshot>): seq<string> {
    seq(|out|, i requires 0 <= i < |out| => out[i].id)
  }

  lemma SizeOfIds<K>(m: map<K, ClientEntry>)
    ensures |Ids(m)| == |m|
  {
    assert Ids(m).Keys == m.Keys;
  }
}
