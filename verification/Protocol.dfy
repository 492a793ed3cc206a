/** Tunnel registrations on the control channel, their answers, and the tunnels they create. */
module Protocol {
  import opened Common
  import opened RegistryModel
  import opened PublicUrl

  datatype TunnelType = Http | Tcp | Unknown(tag: string)

  datatype Request = Request(name: string, kind: TunnelType, subdomain: string, remotePort: int, localAddr: string,
                             hasDir: bool, dir: string)

  datatype Refusal =
    | UnknownType | SubdomainInUse | DeployedAppThere | NoPort | PortNotAllowed | PortInUse | ListenFailed

  datatype Reply = Registered(name: string, url: string) | Refused(name: string, why: Refusal)

  function Subdomain(q: Request): string {
    if q.subdomain == "" then q.name else q.subdomain
  }

  function HttpTunnel(q: Request): Tunnel {
    Tunnel(q.name, HTTP, Subdomain(q), 0, q.localAddr, q.hasDir, q.dir, None)
  }

  function TcpTunnel(q: Request, ln: Listener, port: int): Tunnel {
    Tunnel(q.name, TCP, "", port, q.localAddr, false, "", Some(ln))
  }

  predicate Allowed(cfg: Config, port: int) {
    cfg.allowedPorts == [] || port in cfg.allowedPorts
  }

  /** t is a tunnel that request q asked for; its project directory may have been changed since. */
  predicate Matches(t: Tunnel, q: Request) {
    && t.name == q.name && t.localAddr == q.localAddr
    && match q.kind
       case Http => t.kind.HTTP? && t.subdomain == Subdomain(q)
       case Tcp => t.kind.TCP? && (q.remotePort != 0 ==> t.remotePort == q.remotePort)
       case Unknown(_) => false
  }

  /** The URL of a tunnel, by which its registration is answered. */
  function TunnelUrl(cfg: Config, t: Tunnel): string {
    if t.kind.HTTP? then BuildPublicHTTPURL(cfg, t.subdomain) else BuildTcpURL(cfg, t.remotePort)
  }

  /** A port that a TCP registration may be given: an allowed one, and the one asked for if there is one. */
  predicate Grantable(cfg: Config, q: Request, port: int) {
    Allowed(cfg, port) && (q.remotePort != 0 ==> port == q.remotePort)
  }

  /** r is an answer to request q: it carries its name, and the URL of its subdomain or of a port it may have. */
  ghost predicate Answers(cfg: Config, q: Request, r: Reply) {
    && r.name == q.name
    && (q.kind.Http? && r.Registered? ==> r.url == BuildPublicHTTPURL(cfg, Subdomain(q)))
    && (q.kind.Tcp? && r.Registered? ==> exists port :: Grantable(cfg, q, port) && r.url == BuildTcpURL(cfg, port))
    && (q.kind.Unknown? ==> r == Refused(q.name, UnknownType))
  }

  /** A registration and the answer it got. */
  datatype Deal = Deal(request: Request, reply: Reply)

  /** The answered registrations, in order. */
  function Deals(qs: seq<Request>, rs: seq<Reply>): seq<Deal> {
    if |qs| < |rs| then [] else seq(|rs|, i requires 0 <= i < |rs| => Deal(qs[i], rs[i]))
  }

  /** The tunnel is the one this registration asked for, and was answered with its URL. */
  predicate Made(cfg: Config, t: Tunnel, d: Deal) {
    d.reply.Registered? && Matches(t, d.request) && d.reply.url == TunnelUrl(cfg, t)
  }

  /** The tunnels were made by a subsequence of the deals, in the same order. */
  ghost predicate Subsequence(cfg: Config, ts: seq<Tunnel>, ds: seq<Deal>)
    decreases |ds|
  {
    ts == [] ||
    (ds != [] &&
     var m := |ds| - 1;
     (Made(cfg, ts[|ts| - 1], ds[m]) && Subsequence(cfg, ts[..|ts| - 1], ds[..m])) || Subsequence(cfg, ts, ds[..m]))
  }

  lemma SubsequenceEmpty(cfg: Config, ds: seq<Deal>)
    ensures Subsequence(cfg, [], ds)
  {
  }

  lemma SubsequenceSkip(cfg: Config, ts: seq<Tunnel>, ds: seq<Deal>, d: Deal)
    requires Subsequence(cfg, ts, ds)
    ensures Subsequence(cfg, ts, ds + [d])
  {
    assert (ds + [d])[..|ds|] == ds;
  }

  lemma SubsequenceTake(cfg: Config, ts: seq<Tunnel>, t: Tunnel, ds: seq<Deal>, d: Deal)
    requires Subsequence(cfg, ts, ds) && Made(cfg, t, d)
    ensures Subsequence(cfg, ts + [t], ds + [d])
  {
    hide Made;
    assert (ds + [d])[..|ds|] == ds;
    assert (ts + [t])[..|ts|] == ts;
  }

  lemma {:induction false} SubsequenceWithout(cfg: Config, ts: seq<Tunnel>, i: nat, ds: seq<Deal>)
    requires i < |ts| && Subsequence(cfg, ts, ds)
    ensures Subsequence(cfg, Without(ts, i), ds)
    decreases |ds|
  {
    hide Made;
    var n, m := |ts| - 1, |ds| - 1;
    var w := Without(ts, i);
    if Made(cfg, ts[n], ds[m]) && Subsequence(cfg, ts[..n], ds[..m]) {
      if i == n {
        assert w == ts[..n];
        SubsequenceSkip(cfg, w, ds[..m], ds[m]);
        assert ds[..m] + [ds[m]] == ds;
      } else {
        SubsequenceWithout(cfg, ts[..n], i, ds[..m]);
        assert w[..|w| - 1] == Without(ts[..n], i);
      }
    } else {
      SubsequenceWithout(cfg, ts, i, ds[..m]);
      SubsequenceSkip(cfg, w, ds[..m], ds[m]);
      assert ds[..m] + [ds[m]] == ds;
    }
  }

  lemma MadeWithDir(cfg: Config, t: Tunnel, dir: string, d: Deal)
    ensures Made(cfg, WithDir(t, dir), d) <==> Made(cfg, t, d)
  {
    hide BuildPublicHTTPURL, BuildTcpURL;
  }

  lemma SubsequenceOne(cfg: Config, ts: seq<Tunnel>, us: seq<Tunnel>, ds: seq<Deal>)
    requires ts != [] && us != [] && ds != []
    requires Made(cfg, us[|us| - 1], ds[|ds| - 1]) <==> Made(cfg, ts[|ts| - 1], ds[|ds| - 1])
    requires Subsequence(cfg, ts[..|ts| - 1], ds[..|ds| - 1]) ==> Subsequence(cfg, us[..|us| - 1], ds[..|ds| - 1])
    requires Subsequence(cfg, ts, ds[..|ds| - 1]) ==> Subsequence(cfg, us, ds[..|ds| - 1])
    ensures Subsequence(cfg, ts, ds) ==> Subsequence(cfg, us, ds)
  {
    hide Made;
  }

  /** Changing what `Made` does not look at. */
  lemma {:induction false} SubsequenceUpdate(cfg: Config, ts: seq<Tunnel>, i: nat, dir: string, ds: seq<Deal>)
    requires i < |ts|
    ensures Subsequence(cfg, ts, ds) ==> Subsequence(cfg, ts[i := WithDir(ts[i], dir)], ds)
    decreases |ds|
  {
    hide Made, WithDir;
    if ds != [] {
      var n, m := |ts| - 1, |ds| - 1;
      var us := ts[i := WithDir(ts[i], dir)];
      MadeWithDir(cfg, ts[i], dir, ds[m]);
      SubsequenceUpdate(cfg, ts, i, dir, ds[..m]);
      if i < n {
        SubsequenceUpdate(cfg, ts[..n], i, dir, ds[..m]);
        assert us[..n] == ts[..n][i := WithDir(ts[i], dir)];
      } else {
        assert us[..n] == ts[..n];
      }
      hide Subsequence;
      SubsequenceOne(cfg, ts, us, ds);
    }
  }
}
