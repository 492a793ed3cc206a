/**
  Operations taken one at a time: a registration with its checks and its store as one step, a client
  joining or leaving, an admin removal, a promotion with its eviction. Here the subdomain map is exact
  and exclusive, and automatic ports are the least free ones. Every operation is a run of the
  interleaved system, so its safety results hold here as well.
*/
module Serial {
  import opened Common
  import opened RegistryModel
  import opened RegistryFacts
  import opened PublicUrl
  import opened Protocol

  datatype World = World(reg: Reg, apps: set<string>, serial: nat)

  datatype Op =
    | Join(id: string)
    | Register(id: string, q: Request, granted: bool)
    | Leave(id: string)
    | Remove(id: string, name: string)
    | SetTunnelDir(id: string, name: string, dir: string)
    | Promote(name: string)
    | StopApp(name: string)

  // ----- registration

  /** pickTCPPort: the first port of the range, from `next` on, that the port map does not have. */
  function PickPort(cfg: Config, r: Reg, next: int): (p: Option<int>)
    ensures p.Some? ==> next <= p.value <= cfg.tcpPortMax && p.value !in r.byPort
    ensures p.Some? ==> forall k :: next <= k < p.value ==> k in r.byPort
    ensures p.None? ==> forall k :: next <= k <= cfg.tcpPortMax ==> k in r.byPort
    decreases cfg.tcpPortMax + 1 - next
  {
    if next > cfg.tcpPortMax then None else if next !in r.byPort then Some(next) else PickPort(cfg, r, next + 1)
  }

  function ChoosePort(cfg: Config, r: Reg, q: Request): Option<int> {
    if q.remotePort != 0 then Some(q.remotePort)
    else if cfg.tcpPortMin == 0 then None
    else PickPort(cfg, r, cfg.tcpPortMin)
  }

  function StorePort(w: World, id: string, q: Request, port: int): World
    requires id in w.reg.byID
  {
    var l := Listener(port, w.serial);
    w.(reg := RegisterTCP(w.reg.(open := w.reg.open + {l}), id, TcpTunnel(q, l, port)), serial := w.serial + 1)
  }

  function DoRegister(cfg: Config, w: World, id: string, q: Request, granted: bool): (World, Reply)
    requires id in w.reg.byID
  {
    match q.kind
    case Http =>
      if Subdomain(q) in w.reg.bySubdomain then (w, Refused(q.name, SubdomainInUse))
      else if Subdomain(q) in w.apps then (w, Refused(q.name, DeployedAppThere))
      else (w.(reg := RegisterHTTP(w.reg, id, HttpTunnel(q))), Registered(q.name, BuildPublicHTTPURL(cfg, Subdomain(q))))
    case Tcp =>
      (match ChoosePort(cfg, w.reg, q)
       case None => (w, Refused(q.name, NoPort))
       case Some(port) =>
         if !Allowed(cfg, port) then (w, Refused(q.name, PortNotAllowed))
         else if port in w.reg.byPort then (w, Refused(q.name, PortInUse))
         else if !granted || PortOpen(w.reg, port) then (w, Refused(q.name, ListenFailed))
         else (StorePort(w, id, q, port), Registered(q.name, BuildTcpURL(cfg, port))))
    case Unknown(_) => (w, Refused(q.name, UnknownType))
  }

  /** After a promotion: whatever tunnel the evicted client has under this name goes. */
  function Evict(r: Reg, name: string): Reg {
    if name in r.bySubdomain then RemoveTunnel(r, r.bySubdomain[name], name) else r
  }

  function Apply(cfg: Config, w: World, op: Op): World {
    match op
    case Join(id) => if id in w.reg.byID then w else w.(reg := AddClient(w.reg, id))
    case Register(id, q, granted) => if id in w.reg.byID then DoRegister(cfg, w, id, q, granted).0 else w
    case Leave(id) => w.(reg := RemoveClient(w.reg, id))
    case Remove(id, name) => w.(reg := RemoveTunnel(w.reg, id, name))
    case SetTunnelDir(id, name, dir) => w.(reg := SetDir(w.reg, id, name, dir))
    case Promote(name) => if name in w.apps then w else w.(reg := Evict(w.reg, name), apps := w.apps + {name})
    case StopApp(name) => w.(apps := w.apps - {name})
  }

  function Run(cfg: Config, w: World, ops: seq<Op>): World
    decreases |ops|
  {
    if ops == [] then w else Run(cfg, Apply(cfg, w, ops[0]), ops[1..])
  }

  /** A server that starts with the apps its state file lists. */
  function Start(apps: set<string>): World {
    World(EMPTY, apps, 0)
  }

  // ----- exact maps over any run

  ghost predicate Inv(w: World) {
    && TcpInv(w.reg, map[]) && HttpInv(w.reg)
    && forall l :: l in w.reg.open ==> l.serial < w.serial
  }

  lemma StorePortInv(w: World, id: string, q: Request, port: int)
    requires Inv(w) && id in w.reg.byID && !PortOpen(w.reg, port)
    ensures Inv(StorePort(w, id, q, port))
  {
    var l := Listener(port, w.serial);
    var r := w.reg.(open := w.reg.open + {l});
    var none: map<string, Listener> := map[];
    ListenTcp(w.reg, none, id, l);
    assert none[id := l] - {id} == none;
    RegisterTCPTcp(r, none[id := l], id, TcpTunnel(q, l, port));
    OpenExact(w.reg, r);
    RegisterTCPExact(r, id, TcpTunnel(q, l, port));
  }

  lemma RegisterInv(cfg: Config, w: World, id: string, q: Request, granted: bool)
    requires Inv(w) && id in w.reg.byID
    ensures Inv(DoRegister(cfg, w, id, q, granted).0)
  {
    hide TcpInv, HttpInv;
    match q.kind
    case Http =>
      if Subdomain(q) !in w.reg.bySubdomain && Subdomain(q) !in w.apps {
        RegisterHTTPTcp(w.reg, map[], id, HttpTunnel(q));
        RegisterHTTPExact(w.reg, id, HttpTunnel(q));
      }
    case Tcp =>
      var p := ChoosePort(cfg, w.reg, q);
      if p.Some? && !PortOpen(w.reg, p.value) {
        StorePortInv(w, id, q, p.value);
      }
    case Unknown(_) =>
  }

  lemma ApplyInv(cfg: Config, w: World, op: Op)
    requires Inv(w)
    ensures Inv(Apply(cfg, w, op))
  {
    hide TcpInv, HttpInv;
    match op
    case Join(id) =>
      if id !in w.reg.byID {
        AddClientTcp(w.reg, map[], id);
        AddClientExact(w.reg, id);
      }
    case Register(id, q, granted) => if id in w.reg.byID { RegisterInv(cfg, w, id, q, granted); }
    case Leave(id) =>
      RemoveClientTcp(w.reg, map[], id);
      RemoveClientExact(w.reg, id);
    case Remove(id, name) =>
      RemoveTunnelTcp(w.reg, map[], id, name);
      RemoveTunnelExact(w.reg, id, name);
    case SetTunnelDir(id, name, dir) =>
      SetDirTcp(w.reg, map[], id, name, dir);
      SetDirExact(w.reg, id, name, dir);
    case Promote(name) =>
      if name in w.reg.bySubdomain {
        RemoveTunnelTcp(w.reg, map[], w.reg.bySubdomain[name], name);
        RemoveTunnelExact(w.reg, w.reg.bySubdomain[name], name);
      }
    case StopApp(name) =>
  }

  lemma {:induction false} RunInv(cfg: Config, w: World, ops: seq<Op>)
    requires Inv(w)
    ensures Inv(Run(cfg, w, ops))
    decreases |ops|
  {
    if ops != [] {
      ApplyInv(cfg, w, ops[0]);
      RunInv(cfg, Apply(cfg, w, ops[0]), ops[1..]);
    }
  }

  lemma StartInv(apps: set<string>)
    ensures Inv(Start(apps))
  {
  }

  /** Position i of a live client's list is an HTTP tunnel with subdomain k. */
  predicate HttpAt(r: Reg, id: string, i: int, k: string) {
    id in r.byID && 0 <= i < |r.byID[id]| && r.byID[id][i].kind.HTTP? && r.byID[id][i].subdomain == k
  }

  /** After any run of operations a subdomain leads to a client exactly when that client holds it, in one place only. */
  lemma SubdomainsExclusive(cfg: Config, apps: set<string>, ops: seq<Op>)
    ensures var r := Run(cfg, Start(apps), ops).reg;
            && (forall k, id :: Routes(r, k, id) <==> exists i :: HttpAt(r, id, i, k))
            && (forall k, id, i, id', j :: HttpAt(r, id, i, k) && HttpAt(r, id', j, k) ==> id == id' && i == j)
  {
    StartInv(apps);
    RunInv(cfg, Start(apps), ops);
    var r := Run(cfg, Start(apps), ops).reg;
    forall k, id, i | HttpAt(r, id, i, k)
      ensures HoldsHttp(r, id, k) && Routes(r, k, id)
    {
      assert r.byID[id][i] in r.byID[id];
    }
    forall k, id
      ensures Routes(r, k, id) <==> exists i :: HttpAt(r, id, i, k)
    {
      if HoldsHttp(r, id, k) {
        var t :| t in r.byID[id] && t.kind.HTTP? && t.subdomain == k;
        var i :| 0 <= i < |r.byID[id]| && r.byID[id][i] == t;
        assert HttpAt(r, id, i, k);
      }
    }
  }

  // ----- automatic ports

  predicate InRange(cfg: Config, p: int) {
    cfg.tcpPortMin <= p <= cfg.tcpPortMax
  }

  /** Some tunnel of some live client is on this port. */
  ghost predicate PortHeld(r: Reg, p: int) {
    exists id :: HoldsPort(r, id, p)
  }

  lemma HeldMeansMapped(r: Reg, p: int)
    requires TcpInv(r, map[])
    ensures PortHeld(r, p) <==> p in r.byPort
    ensures PortHeld(r, p) <==> PortOpen(r, p)
  {
    assert p in r.byPort ==> RoutesPort(r, p, r.byPort[p]);
    if id :| HoldsPort(r, id, p) {
      var l := PortSocket(r, id, p);
    }
    if l :| l in r.open && l.port == p {
      assert HasOwner(r, map[], l);
      assert forall h: string :: !HeldBy(map[], h, l);
      var id :| HoldsSocket(r, id, l);
      var t :| t in r.byID[id] && t.kind.TCP? && t.tcpLn == Some(l);
      assert TunnelOk(t);
      assert HoldsPort(r, id, p);
    }
  }

  /**
    In every state a run of operations reaches: with a range configured, no allowed list and no foreign
    listeners, an automatic registration gets the least port of the range that no tunnel holds, and is
    refused exactly when tunnels hold the whole range.
  */
  lemma AutoPortIsLeastFree(cfg: Config, apps: set<string>, ops: seq<Op>, id: string, q: Request)
    requires cfg.tcpPortMin != 0 && cfg.allowedPorts == [] && q.kind.Tcp? && q.remotePort == 0
    requires id in Run(cfg, Start(apps), ops).reg.byID
    ensures var w := Run(cfg, Start(apps), ops);
            var (w', reply) := DoRegister(cfg, w, id, q, true);
            if forall p :: InRange(cfg, p) ==> PortHeld(w.reg, p) then w' == w && reply == Refused(q.name, NoPort)
            else exists p :: LeastFreePort(cfg, w.reg, p) && w' == StorePort(w, id, q, p) &&
                             reply == Registered(q.name, BuildTcpURL(cfg, p))
  {
    var w := Run(cfg, Start(apps), ops);
    StartInv(apps);
    RunInv(cfg, Start(apps), ops);
    forall p
      ensures (PortHeld(w.reg, p) <==> p in w.reg.byPort) && (PortHeld(w.reg, p) <==> PortOpen(w.reg, p))
    {
      HeldMeansMapped(w.reg, p);
    }
    var port := PickPort(cfg, w.reg, cfg.tcpPortMin);
    if port.Some? {
      assert InRange(cfg, port.value) && !PortHeld(w.reg, port.value);
      assert LeastFreePort(cfg, w.reg, port.value);
    } else {
      assert forall p :: InRange(cfg, p) ==> PortHeld(w.reg, p);
    }
  }

  ghost predicate LeastFreePort(cfg: Config, r: Reg, p: int) {
    InRange(cfg, p) && !PortHeld(r, p) && forall k :: InRange(cfg, k) && !PortHeld(r, k) ==> p <= k
  }

  // ----- when a registration succeeds

  /** Some tunnel of some live client is on this subdomain. */
  ghost predicate SubdomainHeld(r: Reg, k: string) {
    exists id, i :: HttpAt(r, id, i, k)
  }

  /** The port that a TCP registration asks for, or else the one that would be picked for it. */
  ghost predicate PortFor(cfg: Config, r: Reg, q: Request, p: int) {
    if q.remotePort != 0 then p == q.remotePort else cfg.tcpPortMin != 0 && LeastFreePort(cfg, r, p)
  }

  /** Said of the tunnel lists alone: nothing stands in the way of this registration. */
  ghost predicate Acceptable(cfg: Config, w: World, q: Request, granted: bool) {
    match q.kind
    case Http => !SubdomainHeld(w.reg, Subdomain(q)) && Subdomain(q) !in w.apps
    case Tcp => granted && exists p :: PortFor(cfg, w.reg, q, p) && Allowed(cfg, p) && !PortHeld(w.reg, p)
    case Unknown(_) => false
  }

  /**
    In every state a run of operations reaches, a registration succeeds exactly when it is acceptable.
    It then appends one matching tunnel to its client's list and touches no other client; when it is
    refused nothing changes.
  */
  lemma RegistrationExact(cfg: Config, apps: set<string>, ops: seq<Op>, id: string, q: Request, granted: bool)
    requires id in Run(cfg, Start(apps), ops).reg.byID
    ensures var w := Run(cfg, Start(apps), ops);
            var (w', reply) := DoRegister(cfg, w, id, q, granted);
            && reply.name == q.name
            && (reply.Registered? <==> Acceptable(cfg, w, q, granted))
            && (!reply.Registered? ==> w' == w)
            && (reply.Registered? ==>
                  exists t :: Matches(t, q) && w'.reg.byID == w.reg.byID[id := w.reg.byID[id] + [t]] && w'.apps == w.apps)
  {
    var w := Run(cfg, Start(apps), ops);
    StartInv(apps);
    RunInv(cfg, Start(apps), ops);
    hide BuildPublicHTTPURL, BuildTcpURL;
    match q.kind
    case Http =>
      SubdomainHeldMapped(w.reg, Subdomain(q));
      assert Matches(HttpTunnel(q), q);
    case Tcp => TcpExact(cfg, w, id, q, granted);
    case Unknown(_) =>
  }

  lemma SubdomainHeldMapped(r: Reg, k: string)
    requires HttpInv(r)
    ensures SubdomainHeld(r, k) <==> k in r.bySubdomain
  {
    if k in r.bySubdomain {
      var id := r.bySubdomain[k];
      assert Routes(r, k, id) && HoldsHttp(r, id, k);
      var t :| t in r.byID[id] && t.kind.HTTP? && t.subdomain == k;
      var i :| 0 <= i < |r.byID[id]| && r.byID[id][i] == t;
      assert HttpAt(r, id, i, k);
    }
    if id, i :| HttpAt(r, id, i, k) {
      assert r.byID[id][i] in r.byID[id];
      assert HoldsHttp(r, id, k) && Routes(r, k, id);
    }
  }

  lemma ChosenPort(cfg: Config, r: Reg, q: Request)
    requires TcpInv(r, map[])
    ensures forall p :: PortFor(cfg, r, q, p) && !PortHeld(r, p) ==> ChoosePort(cfg, r, q) == Some(p)
    ensures ChoosePort(cfg, r, q).Some? ==> PortFor(cfg, r, q, ChoosePort(cfg, r, q).value)
  {
    forall p
      ensures PortHeld(r, p) <==> p in r.byPort
    {
      HeldMeansMapped(r, p);
    }
    hide TcpInv, PortHeld;
  }

  lemma TcpExact(cfg: Config, w: World, id: string, q: Request, granted: bool)
    requires Inv(w) && id in w.reg.byID && q.kind.Tcp?
    ensures var (w', reply) := DoRegister(cfg, w, id, q, granted);
            && reply.name == q.name
            && (reply.Registered? <==> Acceptable(cfg, w, q, granted))
            && (!reply.Registered? ==> w' == w)
            && (reply.Registered? ==>
                  exists t :: Matches(t, q) && w'.reg.byID == w.reg.byID[id := w.reg.byID[id] + [t]] && w'.apps == w.apps)
  {
    hide HttpInv, BuildTcpURL;
    ChosenPort(cfg, w.reg, q);
    var c := ChoosePort(cfg, w.reg, q);
    if c.Some? {
      HeldMeansMapped(w.reg, c.value);
      assert Matches(TcpTunnel(q, Listener(c.value, w.serial), c.value), q);
    }
  }

  /** What a successful registration puts on the client's list, field by field. */
  predicate NewTunnel(t: Tunnel, q: Request) {
    && t.name == q.name && t.localAddr == q.localAddr
    && (q.kind.Http? ==>
          && t.kind.HTTP? && t.subdomain == (if q.subdomain == "" then q.name else q.subdomain)
          && (t.hasDir <==> q.hasDir) && t.dir == q.dir && t.tcpLn.None?)
    && (q.kind.Tcp? ==>
          && t.kind.TCP? && t.subdomain == "" && !t.hasDir && t.dir == ""
          && t.tcpLn.Some? && t.tcpLn.value.port == t.remotePort)
  }

  /** The tunnel t is new in w', on its subdomain or on its port, with its socket; the rest is as in w. */
  ghost predicate Holds(cfg: Config, w: World, w': World, id: string, q: Request, t: Tunnel)
    requires id in w.reg.byID
  {
    && NewTunnel(t, q) && w'.apps == w.apps && w'.reg.byID == w.reg.byID[id := w.reg.byID[id] + [t]]
    && (t.kind.HTTP? ==>
          w'.reg.bySubdomain == w.reg.bySubdomain[t.subdomain := id] && w'.reg.byPort == w.reg.byPort && w'.reg.open == w.reg.open)
    && (t.kind.TCP? ==>
          && PortFor(cfg, w.reg, q, t.remotePort) && w'.reg.bySubdomain == w.reg.bySubdomain
          && w'.reg.byPort == w.reg.byPort[t.remotePort := id]
          && t.tcpLn.Some? && t.tcpLn.value !in w.reg.open && w'.reg.open == w.reg.open + {t.tcpLn.value})
  }

  /** A positive answer names the tunnel and carries its URL, and the registry holds the tunnel from then on. */
  lemma RegistrationHolds(cfg: Config, apps: set<string>, ops: seq<Op>, id: string, q: Request, granted: bool)
    requires id in Run(cfg, Start(apps), ops).reg.byID
    ensures var w := Run(cfg, Start(apps), ops);
            var (w', reply) := DoRegister(cfg, w, id, q, granted);
            reply.Registered? ==>
              exists t :: Holds(cfg, w, w', id, q, t) && reply.url == TunnelUrl(cfg, t)
  {
    hide BuildPublicHTTPURL, BuildTcpURL, TcpInv, HttpInv;
    var w := Run(cfg, Start(apps), ops);
    StartInv(apps);
    RunInv(cfg, Start(apps), ops);
    var (w', reply) := DoRegister(cfg, w, id, q, granted);
    if reply.Registered? {
      if q.kind.Http? {
        assert Holds(cfg, w, w', id, q, HttpTunnel(q));
      } else {
        ChosenPort(cfg, w.reg, q);
        var port := ChoosePort(cfg, w.reg, q).value;
        assert Holds(cfg, w, w', id, q, TcpTunnel(q, Listener(port, w.serial), port));
      }
    }
  }

  /** Why a registration is refused, said of the lists; the reasons are tried in this order. */
  ghost predicate RefusedFor(cfg: Config, w: World, q: Request, granted: bool, why: Refusal) {
    match q.kind
    case Http =>
      if SubdomainHeld(w.reg, if q.subdomain == "" then q.name else q.subdomain) then why.SubdomainInUse?
      else why.DeployedAppThere?
    case Tcp =>
      if q.remotePort == 0 && (cfg.tcpPortMin == 0 || forall p :: InRange(cfg, p) ==> PortHeld(w.reg, p)) then why.NoPort?
      else
        exists p :: PortFor(cfg, w.reg, q, p) &&
                    if cfg.allowedPorts != [] && p !in cfg.allowedPorts then why.PortNotAllowed?
                    else if PortHeld(w.reg, p) then why.PortInUse?
                    else why.ListenFailed? && !granted
    case Unknown(_) => why.UnknownType?
  }

  lemma RefusalsExplained(cfg: Config, apps: set<string>, ops: seq<Op>, id: string, q: Request, granted: bool)
    requires id in Run(cfg, Start(apps), ops).reg.byID
    ensures var w := Run(cfg, Start(apps), ops);
            var reply := DoRegister(cfg, w, id, q, granted).1;
            reply.Refused? ==> RefusedFor(cfg, w, q, granted, reply.why)
  {
    hide BuildPublicHTTPURL, BuildTcpURL;
    var w := Run(cfg, Start(apps), ops);
    StartInv(apps);
    RunInv(cfg, Start(apps), ops);
    match q.kind
    case Http => SubdomainHeldMapped(w.reg, Subdomain(q));
    case Tcp => TcpRefusals(cfg, w, id, q, granted);
    case Unknown(_) =>
  }

  lemma TcpRefusals(cfg: Config, w: World, id: string, q: Request, granted: bool)
    requires Inv(w) && id in w.reg.byID && q.kind.Tcp?
    ensures var reply := DoRegister(cfg, w, id, q, granted).1;
            reply.Refused? ==> RefusedFor(cfg, w, q, granted, reply.why)
  {
    hide BuildTcpURL, HttpInv, TcpInv, PortHeld, PortOpen;
    forall p
      ensures (PortHeld(w.reg, p) <==> p in w.reg.byPort) && (PortHeld(w.reg, p) <==> PortOpen(w.reg, p))
    {
      HeldMeansMapped(w.reg, p);
    }
    ChosenPort(cfg, w.reg, q);
    var c := ChoosePort(cfg, w.reg, q);
    if c.Some? {
      assert PortFor(cfg, w.reg, q, c.value);
    }
  }
}
