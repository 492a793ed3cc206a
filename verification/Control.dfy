/** The server and the control handlers of its clients: the methods whose critical sections Sessions interleaves. */
module Control {
  import opened Common
  import M = RegistryModel
  import opened PublicUrl
  import opened Protocol
  import Registry
  import Serial
  import Routing

  class Server {
    const cfg: Config
    const registry: Registry.Registry
    var deployedApps: set<string>

    ghost function World(): Serial.World
      reads this, registry, registry.byID.Values, registry.host
      requires registry.Valid()
    {
      Serial.World(registry.View(), deployedApps, registry.host.serial)
    }

    constructor (cfg: Config, registry: Registry.Registry, apps: set<string>)
      ensures this.cfg == cfg && this.registry == registry && deployedApps == apps
    {
      this.cfg, this.registry, deployedApps := cfg, registry, apps;
    }

    /** The least port of the configured range that the port map does not have. */
    method PickTCPPort() returns (p: Option<int>)
      requires registry.Valid()
      ensures cfg.tcpPortMin == 0 ==> p == None
      ensures cfg.tcpPortMin != 0 ==> p == Serial.PickPort(cfg, registry.View(), cfg.tcpPortMin)
    {
      if cfg.tcpPortMin == 0 {
        return None;
      }
      var port := cfg.tcpPortMin as int;
      while port <= cfg.tcpPortMax
        invariant Serial.PickPort(cfg, registry.View(), cfg.tcpPortMin) == Serial.PickPort(cfg, registry.View(), port)
        decreases cfg.tcpPortMax + 1 - port
      {
        var taken := registry.IsPortTaken(port);
        if !taken {
          return Some(port);
        }
        port := port + 1;
      }
      return None;
    }

    /** Where handleHTTP sends a request. */
    method RouteRequest(host: string) returns (d: Routing.Decision)
      requires registry.Valid()
      ensures d == Routing.Route(cfg, registry.View(), deployedApps, host)
    {
      var subdomain := ExtractSubdomain(host, cfg.domain);
      if subdomain == "" {
        return Routing.ShowIndex;
      }
      var entry := registry.LookupHTTP(subdomain);
      if entry == null {
        return if subdomain in deployedApps then Routing.ToApp(subdomain) else Routing.NoTunnel;
      }
      var i := 0;
      while i < |entry.tunnels|
        invariant 0 <= i <= |entry.tunnels|
        invariant forall j :: 0 <= j < i ==> entry.tunnels[j].subdomain != subdomain
      {
        if entry.tunnels[i].subdomain == subdomain {
          assert Routing.FirstWith(entry.tunnels, subdomain) == i;
          return Routing.ToTunnel(entry.id, entry.tunnels[i]);
        }
        i := i + 1;
      }
      return Routing.EntryMissing;
    }

    /** The end of a promotion: evicts the client tunnel that used the promoted subdomain, by tunnel name. */
    method EvictAfterPromote(name: string)
      requires registry.Valid()
      modifies registry`bySubdomain, registry`byPort, registry.host`open, registry.byID.Values
      ensures registry.Valid() && registry.View() == Serial.Evict(old(registry.View()), name)
    {
      var entry := registry.LookupHTTP(name);
      if entry != null {
        var removed := registry.RemoveTunnelByName(entry.id, name);
      }
    }
  }

  class ControlHandler {
    const server: Server
    const clientID: string
    var replies: seq<Reply>

    constructor (server: Server, clientID: string)
      ensures this.server == server && this.clientID == clientID && replies == []
    {
      this.server, this.clientID, replies := server, clientID, [];
    }

    method Send(r: Reply)
      modifies this
      ensures replies == old(replies) + [r]
    {
      replies := replies + [r];
    }

    /** Handles one registration; taken alone, it is the serial operation, and it sends one reply. */
    method HandleRegister(q: Request, granted: bool)
      requires server.registry.Valid() && clientID in server.registry.byID
      modifies this, server.registry`bySubdomain, server.registry`byPort, server.registry.byID[clientID], server.registry.host
      ensures server.registry.Valid()
      ensures server.World() == Serial.DoRegister(server.cfg, old(server.World()), clientID, q, granted).0
      ensures replies == old(replies) + [Serial.DoRegister(server.cfg, old(server.World()), clientID, q, granted).1]
    {
      match q.kind {
        case Http => RegisterHTTP(q);
        case Tcp => RegisterTCP(q, granted);
        case Unknown(_) => Send(Refused(q.name, UnknownType));
      }
    }

    method RegisterHTTP(q: Request)
      requires server.registry.Valid() && clientID in server.registry.byID && q.kind.Http?
      modifies this, server.registry`bySubdomain, server.registry.byID[clientID]
      ensures server.registry.Valid()
      ensures server.World() == Serial.DoRegister(server.cfg, old(server.World()), clientID, q, true).0
      ensures replies == old(replies) + [Serial.DoRegister(server.cfg, old(server.World()), clientID, q, true).1]
    {
      hide BuildPublicHTTPURL;
      var subdomain := if q.subdomain == "" then q.name else q.subdomain;
      var taken := server.registry.IsSubdomainTaken(subdomain);
      if taken {
        Send(Refused(q.name, SubdomainInUse));
        return;
      }
      if subdomain in server.deployedApps {
        Send(Refused(q.name, DeployedAppThere));
        return;
      }
      server.registry.RegisterHTTP(clientID, subdomain, HttpTunnel(q));
      Send(Registered(q.name, BuildPublicHTTPURL(server.cfg, subdomain)));
    }

    method RegisterTCP(q: Request, granted: bool)
      requires server.registry.Valid() && clientID in server.registry.byID && q.kind.Tcp?
      modifies this, server.registry`byPort, server.registry.byID[clientID], server.registry.host
      ensures server.registry.Valid()
      ensures server.World() == Serial.DoRegister(server.cfg, old(server.World()), clientID, q, granted).0
      ensures replies == old(replies) + [Serial.DoRegister(server.cfg, old(server.World()), clientID, q, granted).1]
    {
      hide BuildTcpURL, M.RegisterTCP;
      var port := q.remotePort;
      if port == 0 {
        var picked := server.PickTCPPort();
        if picked == None {
          Send(Refused(q.name, NoPort));
          return;
        }
        port := picked.value;
      }
      if server.cfg.allowedPorts != [] && port !in server.cfg.allowedPorts {
        Send(Refused(q.name, PortNotAllowed));
        return;
      }
      var taken := server.registry.IsPortTaken(port);
      if taken {
        Send(Refused(q.name, PortInUse));
        return;
      }
      ListenAndStore(q, port, granted);
    }

    /** The end of registerTCP: net.Listen, and the registration of the socket it gave. */
    method ListenAndStore(q: Request, port: int, granted: bool)
      requires server.registry.Valid() && clientID in server.registry.byID && q.kind.Tcp?
      modifies this, server.registry`byPort, server.registry.byID[clientID], server.registry.host
      ensures server.registry.Valid()
      ensures var w := old(server.World());
              if !granted || M.PortOpen(w.reg, port)
              then server.World() == w && replies == old(replies) + [Refused(q.name, ListenFailed)]
              else server.World() == Serial.StorePort(w, clientID, q, port) &&
                   replies == old(replies) + [Registered(q.name, BuildTcpURL(server.cfg, port))]
    {
      hide M.RegisterTCP, BuildTcpURL;
      ghost var r := server.registry.View();
      var ln := server.registry.host.Listen(port, granted);
      assert server.registry.View().byID == r.byID;
      assert server.registry.View() == r.(open := server.registry.host.open);
      if ln == None {
        Send(Refused(q.name, ListenFailed));
      } else {
        server.registry.RegisterTCP(clientID, port, TcpTunnel(q, ln.value, port));
        Send(Registered(q.name, BuildTcpURL(server.cfg, port)));
      }
    }
  }
}
