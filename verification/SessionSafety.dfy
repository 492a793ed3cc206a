/** What the sessions' invariant means for every interleaving, and exactly where subdomain exclusivity stops. */
module SessionSafety {
  import opened Common
  import opened RegistryModel
  import opened RegistryFacts
  import opened PublicUrl
  import opened Protocol
  import opened Sessions

  /** The states some interleaving of sessions and admin requests reaches. */
  ghost predicate Reachable(cfg: Config, s: Sys) {
    exists steps :: s == Run(cfg, INIT, steps)
  }

  lemma ReachableInv(cfg: Config, s: Sys)
    requires Reachable(cfg, s)
    ensures Inv(cfg, s)
  {
    var steps :| s == Run(cfg, INIT, steps);
    InitInv(cfg);
    RunInv(cfg, INIT, steps);
  }

  /** Position i of a live client's list is a TCP tunnel on port p. */
  predicate TcpAt(r: Reg, id: string, i: int, p: int) {
    id in r.byID && 0 <= i < |r.byID[id]| && r.byID[id][i].kind.TCP? && r.byID[id][i].remotePort == p
  }

  /** No two registered TCP tunnels share a port, and the port map is exact. */
  lemma PortsExclusive(cfg: Config, s: Sys)
    requires Reachable(cfg, s)
    ensures forall id, i, id', j, p :: TcpAt(s.reg, id, i, p) && TcpAt(s.reg, id', j, p) ==> id == id' && i == j
    ensures forall p, id :: RoutesPort(s.reg, p, id) <==> exists i :: TcpAt(s.reg, id, i, p)
  {
    ReachableInv(cfg, s);
    var r := s.reg;
    forall id, i, p | TcpAt(r, id, i, p)
      ensures HoldsPort(r, id, p) && r.byID[id][i].tcpLn.Some?
      ensures HoldsSocket(r, id, r.byID[id][i].tcpLn.value) && r.byID[id][i].tcpLn.value.port == p
    {
      assert TunnelOk(r.byID[id][i]);
    }
    forall p, id
      ensures RoutesPort(r, p, id) <==> exists i :: TcpAt(r, id, i, p)
    {
      if HoldsPort(r, id, p) {
        var t :| t in r.byID[id] && t.kind.TCP? && t.remotePort == p;
        var i :| 0 <= i < |r.byID[id]| && r.byID[id][i] == t;
        assert TcpAt(r, id, i, p);
      }
    }
  }

  /** A socket registered with a tunnel, or got by a handler that is about to register it. */
  predicate OwnedBy(s: Sys, l: Listener, id: string, i: int) {
    if i < 0 then i == -1 && id in s.handlers && s.handlers[id].pc.TcpStore? && s.handlers[id].pc.ln == l
    else id in s.reg.byID && i < |s.reg.byID[id]| && s.reg.byID[id][i].kind.TCP? && s.reg.byID[id][i].tcpLn == Some(l)
  }

  /** The sockets this process has open are the owned ones, and each has one owner. */
  lemma OpenSocketsOwnedOnce(cfg: Config, s: Sys)
    requires Reachable(cfg, s)
    ensures forall l :: l in s.reg.open <==> exists id, i :: OwnedBy(s, l, id, i)
    ensures forall l, id, i, id', j :: OwnedBy(s, l, id, i) && OwnedBy(s, l, id', j) ==> id == id' && i == j
  {
    ReachableInv(cfg, s);
    var held := Held(s.handlers);
    forall l, id, i | OwnedBy(s, l, id, i)
      ensures if i < 0 then HeldBy(held, id, l) else HoldsSocket(s.reg, id, l)
    {
    }
    forall l | l in s.reg.open
      ensures exists id, i :: OwnedBy(s, l, id, i)
    {
      assert HasOwner(s.reg, held, l);
      if h :| HeldBy(held, h, l) {
        assert OwnedBy(s, l, h, -1);
      } else {
        var id :| HoldsSocket(s.reg, id, l);
        var t :| t in s.reg.byID[id] && t.kind.TCP? && t.tcpLn == Some(l);
        var i :| 0 <= i < |s.reg.byID[id]| && s.reg.byID[id][i] == t;
        assert OwnedBy(s, l, id, i);
      }
    }
  }

  /** A client that has left owns no open socket, keeps no entry in any map, and comes back under no interleaving. */
  lemma GoneLeavesNothing(cfg: Config, s: Sys, id: string)
    requires Reachable(cfg, s) && id in s.handlers && s.handlers[id].pc.Gone?
    ensures id !in s.reg.byID
    ensures forall k :: !Routes(s.reg, k, id)
    ensures forall p :: !RoutesPort(s.reg, p, id)
    ensures forall l, i :: !OwnedBy(s, l, id, i)
    ensures forall steps :: id in Run(cfg, s, steps).handlers && Run(cfg, s, steps).handlers[id].pc.Gone?
  {
    ReachableInv(cfg, s);
    assert SessionOk(cfg, s, id);
    assert forall k :: !HoldsHttp(s.reg, id, k);
    assert forall p :: !HoldsPort(s.reg, id, p);
    forall steps {
      GoneStays(cfg, s, id, steps);
    }
  }

  lemma {:induction false} GoneStays(cfg: Config, s: Sys, id: string, steps: seq<Step>)
    requires id in s.handlers && s.handlers[id].pc.Gone?
    ensures id in Run(cfg, s, steps).handlers && Run(cfg, s, steps).handlers[id].pc.Gone?
    decreases |steps|
  {
    if steps != [] {
      GoneStays(cfg, Next(cfg, s, steps[0]), id, steps[1..]);
    }
  }

  /**
    Every route leads to a live client that holds a matching tunnel, and no handler ever finds its
    own `byID` entry missing.
  */
  lemma RoutesLive(cfg: Config, s: Sys)
    requires Reachable(cfg, s)
    ensures !s.crashed
    ensures forall id :: id in s.handlers && (s.handlers[id].pc.HttpStore? || s.handlers[id].pc.TcpStore?) ==> id in s.reg.byID
    ensures forall k :: k in s.reg.bySubdomain ==>
              var id := s.reg.bySubdomain[k];
              id in s.reg.byID && exists t :: t in s.reg.byID[id] && t.kind.HTTP? && t.subdomain == k
  {
    ReachableInv(cfg, s);
    assert forall id :: id in s.handlers ==> SessionOk(cfg, s, id);
    forall k | k in s.reg.bySubdomain
      ensures HoldsHttp(s.reg, s.reg.bySubdomain[k], k)
    {
      assert Routes(s.reg, k, s.reg.bySubdomain[k]);
    }
  }

  /**
    Registrations are answered exactly once and in order: the i-th reply answers the i-th registration,
    none is missing but the one being handled. The client's tunnels were made by a subsequence of these
    deals, each answered with the URL of its tunnel; the last of them may still have to be sent.
  */
  lemma AnsweredInOrder(cfg: Config, s: Sys, id: string)
    requires Reachable(cfg, s) && id in s.handlers
    ensures var h := s.handlers[id];
            && (forall i :: 0 <= i < |h.replies| ==> i < |h.received| && Answers(cfg, h.received[i], h.replies[i]))
            && (h.pc.Idle? || h.pc.Closing? || h.pc.Gone? ==> |h.replies| == |h.received|)
            && (Busy(h.pc) ==> |h.replies| + 1 == |h.received|)
    ensures id in s.reg.byID ==> Subsequence(cfg, s.reg.byID[id], Sources(s.handlers[id]))
  {
    ReachableInv(cfg, s);
    assert SessionOk(cfg, s, id);
    assert id in s.reg.byID ==> ListedOk(cfg, s, id);
  }

  // ----- subdomains: exactly where check-then-register breaks exclusivity

  /** A handler stores a subdomain that was taken since it looked. */
  predicate StaleStore(s: Sys, step: Step) {
    && step.Act? && step.id in s.handlers
    && var h := s.handlers[step.id];
       h.pc.HttpStore? && h.received != [] && Subdomain(Last(h)) in s.reg.bySubdomain
  }

  lemma StoreTaken(r: Reg, id: string, t: Tunnel)
    requires HttpInv(r) && id in r.byID && t.kind.HTTP? && t.subdomain in r.bySubdomain
    ensures !HttpInv(RegisterHTTP(r, id, t))
  {
    var q, k := RegisterHTTP(r, id, t), t.subdomain;
    var other := r.bySubdomain[k];
    assert Routes(r, k, other) && HoldsHttp(r, other, k);
    if other == id {
      var u :| u in r.byID[id] && u.kind.HTTP? && u.subdomain == k;
      var i :| 0 <= i < |r.byID[id]| && r.byID[id][i] == u;
      assert q.byID[id][i] == u && q.byID[id][|r.byID[id]|] == t;
    } else {
      assert HoldsHttp(q, other, k) && !Routes(q, k, other);
    }
  }

  /**
    From a state whose subdomain map is exact and whose subdomains are exclusive, a step leads to
    another one exactly when it is not a stale store.
  */
  lemma ExactUnlessStale(cfg: Config, s: Sys, step: Step)
    requires Inv(cfg, s) && HttpInv(s.reg)
    ensures HttpInv(Next(cfg, s, step).reg) <==> !StaleStore(s, step)
  {
    hide TcpInv, HttpSound;
    match step
    case Act(id) =>
      if id in s.handlers {
        assert SessionOk(cfg, s, id);
        var h := s.handlers[id];
        match h.pc
        case Authed => AddClientExact(s.reg, id);
        case Closing => RemoveClientExact(s.reg, id);
        case HttpStore =>
          if Subdomain(Last(h)) in s.reg.bySubdomain {
            StoreTaken(s.reg, id, HttpTunnel(Last(h)));
          } else {
            RegisterHTTPExact(s.reg, id, HttpTunnel(Last(h)));
          }
        case TcpStore(port, ln) => RegisterTCPExact(s.reg, id, TcpTunnel(Last(h), ln, port));
        case _ =>
      }
    case ListenReturns(id, granted) =>
      if id in s.handlers && s.handlers[id].pc.Listening? {
        OpenExact(s.reg, DoListen(s, id, granted).reg);
      }
    case AdminRemove(id, name) => RemoveTunnelExact(s.reg, id, name);
    case AdminSetDir(id, name, dir) => SetDirExact(s.reg, id, name, dir);
    case _ =>
  }

  lemma RunNext(cfg: Config, s: Sys, steps: seq<Step>, n: nat)
    requires n < |steps|
    ensures Run(cfg, s, steps[..n + 1]) == Next(cfg, Run(cfg, s, steps[..n]), steps[n])
  {
    hide Next;
    RunAppend(cfg, s, steps[..n], [steps[n]]);
    assert steps[..n + 1] == steps[..n] + [steps[n]];
    RunOne(cfg, Run(cfg, s, steps[..n]), steps[n]);
  }

  lemma RunOne(cfg: Config, s: Sys, step: Step)
    ensures Run(cfg, s, [step]) == Next(cfg, s, step)
  {
    hide Next;
    assert [step][1..] == [];
  }

  /** A whole run keeps the map exact at every point exactly when none of its steps is a stale store. */
  lemma {:induction false} RunExactUnlessStale(cfg: Config, steps: seq<Step>)
    ensures (forall i :: 0 <= i <= |steps| ==> HttpInv(Run(cfg, INIT, steps[..i]).reg)) <==>
            (forall i :: 0 <= i < |steps| ==> !StaleStore(Run(cfg, INIT, steps[..i]), steps[i]))
    decreases |steps|
  {
    hide Next, Run, StaleStore, Inv;
    var n := |steps| - 1;
    if steps == [] {
      EmptyExact(cfg);
      assert steps[..0] == [];
    } else {
      var before := steps[..n];
      RunExactUnlessStale(cfg, before);
      forall i | 0 <= i <= n
        ensures before[..i] == steps[..i]
      {
      }
      InitInv(cfg);
      RunInv(cfg, INIT, before);
      RunNext(cfg, INIT, steps, n);
      assert steps[..n + 1] == steps;
      if HttpInv(Run(cfg, INIT, before).reg) {
        ExactUnlessStale(cfg, Run(cfg, INIT, before), steps[n]);
      }
      assert (forall i :: 0 <= i <= n ==> HttpInv(Run(cfg, INIT, before[..i]).reg)) ==>
               HttpInv(Run(cfg, INIT, before[..n]).reg);
    }
  }

  lemma EmptyExact(cfg: Config)
    ensures HttpInv(Run(cfg, INIT, []).reg)
  {
  }

  // ----- subdomains and apps, under every interleaving

  /** No subdomain leads to a client and is an app at the same time. */
  ghost predicate Apart(s: Sys) {
    forall k :: k in s.reg.bySubdomain ==> k !in s.apps
  }

  /** A handler stores a subdomain that has become an app since it looked, or an app appears on one that is routed. */
  predicate Overlaps(s: Sys, step: Step) {
    match step
    case Act(id) =>
      id in s.handlers && id in s.reg.byID &&
      var h := s.handlers[id]; h.pc.HttpStore? && h.received != [] && Subdomain(Last(h)) in s.apps
    case ChangeApps(apps) => exists k :: k in apps && k in s.reg.bySubdomain
    case _ => false
  }

  lemma ApartExactly(cfg: Config, s: Sys, step: Step)
    requires Apart(s)
    ensures Apart(Next(cfg, s, step)) <==> !Overlaps(s, step)
  {
    hide BuildPublicHTTPURL, BuildTcpURL, HttpKeys;
    if step.Act? && Overlaps(s, step) {
      assert Subdomain(Last(s.handlers[step.id])) in Next(cfg, s, step).reg.bySubdomain;
    }
  }

  const WEB := Request("web", Http, "", 0, "localhost:3000", false, "")

  lemma ReachStep(cfg: Config, s: Sys, step: Step) returns (t: Sys)
    requires Reachable(cfg, s)
    ensures t == Next(cfg, s, step) && Reachable(cfg, t)
  {
    var steps :| s == Run(cfg, INIT, steps);
    RunAppend(cfg, INIT, steps, [step]);
    t := Next(cfg, s, step);
    assert Run(cfg, s, [step]) == t;
  }

  /** Both clients are connected. */
  lemma RaceConnect(cfg: Config) returns (s: Sys)
    ensures Reachable(cfg, s)
    ensures s == Sys(EMPTY.(byID := map["a" := [], "b" := []]), s.handlers, {}, 0, false)
    ensures s.handlers == map["a" := Handler(Idle, [], []), "b" := Handler(Idle, [], [])]
  {
    assert INIT == Run(cfg, INIT, []);
    s := ReachStep(cfg, INIT, Connect("a"));
    s := ReachStep(cfg, s, Act("a"));
    s := ReachStep(cfg, s, Connect("b"));
    s := ReachStep(cfg, s, Act("b"));
  }

  /** Both have asked for the subdomain. */
  lemma RaceAsk(cfg: Config) returns (s: Sys)
    ensures Reachable(cfg, s)
    ensures s == Sys(EMPTY.(byID := map["a" := [], "b" := []]), s.handlers, {}, 0, false)
    ensures s.handlers == map["a" := Handler(SubdomainCheck, [WEB], []), "b" := Handler(SubdomainCheck, [WEB], [])]
  {
    s := RaceConnect(cfg);
    s := ReachStep(cfg, s, Receive("a", WEB));
    s := ReachStep(cfg, s, Receive("b", WEB));
    assert [] + [WEB] == [WEB];
  }

  /** Both have found it free. */
  lemma RaceLook(cfg: Config) returns (s: Sys)
    ensures Reachable(cfg, s)
    ensures s == Sys(EMPTY.(byID := map["a" := [], "b" := []]), s.handlers, {}, 0, false)
    ensures s.handlers == map["a" := Handler(HttpStore, [WEB], []), "b" := Handler(HttpStore, [WEB], [])]
  {
    s := RaceAsk(cfg);
    s := ReachStep(cfg, s, Act("a"));
    s := ReachStep(cfg, s, Act("b"));
    s := ReachStep(cfg, s, Act("a"));
    s := ReachStep(cfg, s, Act("b"));
  }

  /**
    Under full interleaving two live clients can hold one subdomain: both ask for it, and both look
    before either stores.
  */
  lemma SubdomainRace(cfg: Config)
    ensures exists s :: Reachable(cfg, s) && HoldsHttp(s.reg, "a", "web") && HoldsHttp(s.reg, "b", "web")
  {
    var s := RaceLook(cfg);
    s := ReachStep(cfg, s, Act("a"));
    s := ReachStep(cfg, s, Act("b"));
    var te := HttpTunnel(WEB);
    assert s.reg.byID["a"] == [] + [te] && s.reg.byID["b"] == [] + [te];
    assert te in [te];
    assert HoldsHttp(s.reg, "a", "web") && HoldsHttp(s.reg, "b", "web");
  }

  /** A handler that has found no app on its subdomain stores it after one has appeared there. */
  lemma AppRace(cfg: Config)
    ensures exists s :: Reachable(cfg, s) && HoldsHttp(s.reg, "a", "web") && "web" in s.reg.bySubdomain && "web" in s.apps
  {
    var s := RaceLook(cfg);
    s := ReachStep(cfg, s, ChangeApps({"web"}));
    s := ReachStep(cfg, s, Act("a"));
    var te := HttpTunnel(WEB);
    assert s.reg.byID["a"] == [] + [te];
    assert te in [te];
    assert HoldsHttp(s.reg, "a", "web");
  }

  /** One client holds the subdomain; the other has only found it free. */
  lemma OneStored(cfg: Config) returns (s: Sys)
    ensures Reachable(cfg, s)
    ensures s.reg.byID == map["a" := [HttpTunnel(WEB)], "b" := []] && s.reg.bySubdomain == map["web" := "a"]
  {
    var t := RaceLook(cfg);
    s := ReachStep(cfg, t, Act("a"));
    assert [] + [HttpTunnel(WEB)] == [HttpTunnel(WEB)] && Subdomain(WEB) == "web";
    assert s.reg == RegisterHTTP(t.reg, "a", HttpTunnel(WEB));
    assert s.reg.byID == map["a" := [HttpTunnel(WEB)], "b" := []];
    assert s.reg.bySubdomain == map["web" := "a"];
  }
}
