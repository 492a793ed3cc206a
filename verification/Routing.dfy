/** Which tunnel or app a public HTTP request goes to. */
module Routing {
  import opened RegistryModel
  import opened PublicUrl
  import opened Protocol
  import Serial
  import Sessions
  import SessionSafety

  datatype Decision =
    | ShowIndex                            // the host names no subdomain
    | ToTunnel(id: string, tunnel: Tunnel)
    | ToApp(name: string)
    | NoTunnel
    | EntryMissing                         // the map led to a client without such a tunnel

  /** The first tunnel with this subdomain, of whatever kind; the length of the list when there is none. */
  function FirstWith(ts: seq<Tunnel>, subdomain: string): (i: nat)
    ensures i <= |ts|
    ensures i < |ts| ==> ts[i].subdomain == subdomain
    ensures forall j :: 0 <= j < i ==> ts[j].subdomain != subdomain
  {
    if ts == [] then 0 else if ts[0].subdomain == subdomain then 0 else 1 + FirstWith(ts[1..], subdomain)
  }

  /** The second critical section: the scan of the list that the client's entry has by then. */
  function Scan(id: string, ts: seq<Tunnel>, sub: string): Decision {
    var i := FirstWith(ts, sub);
    if i < |ts| then ToTunnel(id, ts[i]) else EntryMissing
  }

  /** The decision when the scan reads the list ts, whatever has happened since the lookup in r. */
  function RouteThen(cfg: Config, r: Reg, apps: set<string>, host: string, ts: seq<Tunnel>): Decision {
    var sub := ExtractSubdomain(host, cfg.domain);
    if sub == "" then ShowIndex
    else if sub !in r.bySubdomain then (if sub in apps then ToApp(sub) else NoTunnel)
    else Scan(r.bySubdomain[sub], ts, sub)
  }

  /** The decision when nothing happens between the lookup and the scan. */
  function Route(cfg: Config, r: Reg, apps: set<string>, host: string): Decision {
    var sub := ExtractSubdomain(host, cfg.domain);
    var id := if sub in r.bySubdomain then r.bySubdomain[sub] else "";
    RouteThen(cfg, r, apps, host, if id in r.byID then r.byID[id] else [])
  }

  /**
    With a sound subdomain map the request is never answered with a missing entry, and the chosen tunnel
    is an HTTP tunnel of a live client with that subdomain, though the scan ignores the tunnel's type.
  */
  lemma SoundMapRoutes(cfg: Config, r: Reg, apps: set<string>, host: string)
    requires ListsOk(r) && HttpSound(r)
    ensures Chosen(cfg, r, host, Route(cfg, r, apps, host))
  {
    var sub := ExtractSubdomain(host, cfg.domain);
    if sub in r.bySubdomain {
      var id := r.bySubdomain[sub];
      assert Routes(r, sub, id) && HoldsHttp(r, id, sub);
      var t :| t in r.byID[id] && t.kind.HTTP? && t.subdomain == sub;
      var i := FirstWith(r.byID[id], sub);
      assert i < |r.byID[id]|;
      assert r.byID[id][i] in r.byID[id] && TunnelOk(r.byID[id][i]);
    }
  }

  /** The entry is not missing, and a chosen tunnel is one that the request may go to. */
  predicate Chosen(cfg: Config, r: Reg, host: string, d: Decision) {
    && d != EntryMissing
    && (d.ToTunnel? ==> Found(r, ExtractSubdomain(host, cfg.domain), d.id, d.tunnel))
  }

  /** So it is in every state of every interleaving, when the lookup and the scan see one state. */
  lemma RouteSound(cfg: Config, s: Sessions.Sys, host: string)
    requires SessionSafety.Reachable(cfg, s)
    ensures Chosen(cfg, s.reg, host, Route(cfg, s.reg, s.apps, host))
  {
    SessionSafety.ReachableInv(cfg, s);
    SoundMapRoutes(cfg, s.reg, s.apps, host);
  }

  /**
    With other steps between the lookup and the scan: while the client is live the entry is missing
    exactly when the client has lost its HTTP tunnel on the subdomain, and a chosen tunnel is one it has.
  */
  lemma RouteLater(cfg: Config, s: Sessions.Sys, steps: seq<Sessions.Step>, host: string)
    requires SessionSafety.Reachable(cfg, s)
    requires var sub := ExtractSubdomain(host, cfg.domain);
             sub != "" && sub in s.reg.bySubdomain && s.reg.bySubdomain[sub] in Sessions.Run(cfg, s, steps).reg.byID
    ensures var sub := ExtractSubdomain(host, cfg.domain);
            var id, t := s.reg.bySubdomain[sub], Sessions.Run(cfg, s, steps);
            var d := RouteThen(cfg, s.reg, s.apps, host, t.reg.byID[id]);
            && (d == EntryMissing <==> !HoldsHttp(t.reg, id, sub))
            && (d != EntryMissing ==> d.ToTunnel? && Found(t.reg, sub, d.id, d.tunnel))
  {
    var sub, t := ExtractSubdomain(host, cfg.domain), Sessions.Run(cfg, s, steps);
    hide ExtractSubdomain;
    SessionSafety.ReachableInv(cfg, s);
    Sessions.RunInv(cfg, s, steps);
    var ts := t.reg.byID[s.reg.bySubdomain[sub]];
    var i := FirstWith(ts, sub);
    if i < |ts| {
      assert ts[i] in ts && TunnelOk(ts[i]);
    }
  }

  /** And it can be missing: a tunnel is removed between the lookup and the scan, and its client stays. */
  lemma MissingReached(cfg: Config, host: string)
    requires ExtractSubdomain(host, cfg.domain) == "web"
    ensures exists s, steps ::
              var t := Sessions.Run(cfg, s, steps);
              && SessionSafety.Reachable(cfg, s) && Route(cfg, s.reg, s.apps, host).ToTunnel? && "a" in t.reg.byID
              && RouteThen(cfg, s.reg, s.apps, host, t.reg.byID["a"]) == EntryMissing
  {
    hide ExtractSubdomain, SessionSafety.Reachable;
    var s := SessionSafety.OneStored(cfg);
    var step := Sessions.AdminRemove("a", "web");
    SessionSafety.RunOne(cfg, s, step);
    var te := HttpTunnel(SessionSafety.WEB);
    assert s.reg.byID["a"] == [te];
    assert FirstWith([te], "web") == 0 && IndexOfName([te], "web") == 0;
    assert Without([te], 0) == [];
    assert Sessions.Run(cfg, s, [step]).reg.byID["a"] == [];
  }

  /** Some live client has this HTTP tunnel: what a search through all tunnel lists finds. */
  predicate Found(r: Reg, sub: string, id: string, t: Tunnel) {
    id in r.byID && t in r.byID[id] && t.kind.HTTP? && t.subdomain == sub
  }

  /** The decision of a linear search over all clients' tunnels and then over the deployed apps. */
  ghost predicate AsSearched(r: Reg, apps: set<string>, sub: string, d: Decision) {
    && (forall id, t :: d == ToTunnel(id, t) <==> Found(r, sub, id, t))
    && (d == ToApp(sub) <==> sub in apps && forall id, t :: !Found(r, sub, id, t))
    && (d == NoTunnel <==> sub !in apps && forall id, t :: !Found(r, sub, id, t))
  }

  /** With exact maps the indexed lookup decides as the search would, which finds one tunnel at most. */
  lemma ExactMapRoutes(cfg: Config, r: Reg, apps: set<string>, host: string)
    requires ListsOk(r) && HttpInv(r) && ExtractSubdomain(host, cfg.domain) != ""
    ensures AsSearched(r, apps, ExtractSubdomain(host, cfg.domain), Route(cfg, r, apps, host))
  {
    var sub, d := ExtractSubdomain(host, cfg.domain), Route(cfg, r, apps, host);
    SoundMapRoutes(cfg, r, apps, host);
    forall id, t | Found(r, sub, id, t)
      ensures d == ToTunnel(id, t)
    {
      assert HoldsHttp(r, id, sub) && Routes(r, sub, id);
      var ts := r.byID[id];
      var k :| 0 <= k < |ts| && ts[k] == t;
      var i := FirstWith(ts, sub);
      assert ts[i] in ts && TunnelOk(ts[i]);
    }
  }

  /**
    After any run of serial operations, said of the host's text: the index page is shown exactly to hosts
    with no label below the base domain, and for the others the search decides on that label.
  */
  lemma RequestsDecided(cfg: Config, start: set<string>, ops: seq<Serial.Op>, host: string, h: string)
    requires Bare(host, h)
    ensures var w := Serial.Run(cfg, Serial.Start(start), ops);
            var d := Route(cfg, w.reg, w.apps, host);
            && (d == ShowIndex <==> forall k :: !Under(h, cfg.domain, k))
            && (forall k :: Under(h, cfg.domain, k) ==> AsSearched(w.reg, w.apps, k, d))
  {
    hide ExtractSubdomain, Bare, Under, AsSearched;
    var w := Serial.Run(cfg, Serial.Start(start), ops);
    ExtractExactly(host, h, cfg.domain);
    if ExtractSubdomain(host, cfg.domain) != "" {
      RouteIsLinearSearch(cfg, start, ops, host);
    }
    NonemptyUnder(h, cfg.domain);
  }

  lemma NonemptyUnder(h: string, base: string)
    ensures forall k :: Under(h, base, k) ==> k != ""
  {
  }

  /** So it is after any run of serial operations, for every request with a subdomain. */
  lemma RouteIsLinearSearch(cfg: Config, start: set<string>, ops: seq<Serial.Op>, host: string)
    requires ExtractSubdomain(host, cfg.domain) != ""
    ensures var w := Serial.Run(cfg, Serial.Start(start), ops);
            AsSearched(w.reg, w.apps, ExtractSubdomain(host, cfg.domain), Route(cfg, w.reg, w.apps, host))
  {
    Serial.StartInv(start);
    Serial.RunInv(cfg, Serial.Start(start), ops);
    var w := Serial.Run(cfg, Serial.Start(start), ops);
    ExactMapRoutes(cfg, w.reg, w.apps, host);
  }

  /**
    End to end: after a successful HTTP registration, a request for the host of the returned URL goes to
    the tunnel just registered.
  */
  lemma RegisteredUrlRoutes(cfg: Config, start: set<string>, ops: seq<Serial.Op>, id: string, q: Request)
    requires id in Serial.Run(cfg, Serial.Start(start), ops).reg.byID && q.kind.Http? && IsLabel(Subdomain(q))
    requires PlainConfig(cfg) && HasPublicHost(cfg) && (cfg.domain == "" || PublicHostname(cfg) == cfg.domain)
    ensures var (w', reply) := Serial.DoRegister(cfg, Serial.Run(cfg, Serial.Start(start), ops), id, q, true);
            reply.Registered? ==> Route(cfg, w'.reg, w'.apps, HostOf(reply.url)) == ToTunnel(id, HttpTunnel(q))
  {
    hide BuildPublicHTTPURL, BuildTcpURL, ExtractSubdomain, HostOf;
    var w := Serial.Run(cfg, Serial.Start(start), ops);
    Serial.StartInv(start);
    Serial.RunInv(cfg, Serial.Start(start), ops);
    var (w', reply) := Serial.DoRegister(cfg, w, id, q, true);
    if reply.Registered? {
      UrlExtractsBack(cfg, Subdomain(q));
      Serial.RegisterInv(cfg, w, id, q, true);
      ExactMapRoutes(cfg, w'.reg, w'.apps, HostOf(reply.url));
      assert w'.reg.byID[id][|w.reg.byID[id]|] == HttpTunnel(q);
      assert Found(w'.reg, Subdomain(q), id, HttpTunnel(q));
    }
  }
}
