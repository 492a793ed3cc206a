/** Subdomains and deployed apps: what a promotion evicts, and when no subdomain is both a tunnel and an app. */
module Eviction {
  import opened RegistryModel
  import opened RegistryFacts
  import opened PublicUrl
  import opened Protocol
  import opened Serial
  import RegistryEffects

  /** No subdomain is both a registered tunnel and a deployed app. */
  ghost predicate NoOverlap(w: World) {
    forall k :: k in w.reg.bySubdomain ==> k !in w.apps
  }

  predicate EvictionTakes(r: Reg, name: string)
    requires name in r.bySubdomain
  {
    var id := r.bySubdomain[name];
    HasTunnel(r, id, name) &&
    var t := r.byID[id][IndexOfName(r.byID[id], name)];
    t.kind.HTTP? && t.subdomain == name
  }

  /**
    Promotion evicts by tunnel name, not by subdomain. The promoted subdomain stops being routed to a
    client exactly when it was not routed, or the client's first tunnel of that name is the HTTP tunnel
    with that subdomain.
  */
  lemma EvictionExact(r: Reg, name: string)
    requires HttpInv(r)
    ensures name !in Evict(r, name).bySubdomain <==> (name !in r.bySubdomain || EvictionTakes(r, name))
    ensures forall k :: k in Evict(r, name).bySubdomain ==> k in r.bySubdomain
  {
    if name in r.bySubdomain && HasTunnel(r, r.bySubdomain[name], name) {
      var id := r.bySubdomain[name];
      SingleKeys(r.byID[id][IndexOfName(r.byID[id], name)]);
    }
  }

  /** Eviction removes from the client that the subdomain leads to, and from no other, its first tunnel of this name. */
  lemma EvictionDoes(r: Reg, name: string)
    ensures var q := Evict(r, name);
            && (name !in r.bySubdomain ==> q == r)
            && (name in r.bySubdomain ==>
                  exists removed :: RegistryEffects.Removal(r, q, r.bySubdomain[name], name, removed))
  {
    hide RegistryEffects.Removal, RemoveTunnel;
    if name in r.bySubdomain {
      var id := r.bySubdomain[name];
      RegistryEffects.RemoveTunnelDoes(r, id, name);
      assert RegistryEffects.Removal(r, Evict(r, name), id, name, HasTunnel(r, id, name));
    }
  }

  /** A promotion whose eviction misses the tunnel on the promoted subdomain. */
  predicate Misses(w: World, op: Op) {
    op.Promote? && op.name !in w.apps && op.name in w.reg.bySubdomain && !EvictionTakes(w.reg, op.name)
  }

  /** From a state without overlap an operation makes one exactly when it is a promotion that misses. */
  lemma OverlapExactly(cfg: Config, w: World, op: Op)
    requires Inv(w) && NoOverlap(w)
    ensures NoOverlap(Apply(cfg, w, op)) <==> !Misses(w, op)
  {
    hide TcpInv, BuildPublicHTTPURL, BuildTcpURL;
    match op
    case Promote(name) => EvictionExact(w.reg, name);
    case _ =>
  }

  /** A run keeps subdomains and apps apart exactly when none of its promotions misses. */
  lemma {:induction false} RunOverlapExactly(cfg: Config, w: World, ops: seq<Op>)
    requires Inv(w) && NoOverlap(w)
    ensures (forall i :: 0 <= i <= |ops| ==> NoOverlap(Run(cfg, w, ops[..i]))) <==>
            (forall i :: 0 <= i < |ops| ==> !Misses(Run(cfg, w, ops[..i]), ops[i]))
    decreases |ops|
  {
    hide Inv, NoOverlap, Misses, Apply;
    var n := |ops| - 1;
    if ops == [] {
      assert Run(cfg, w, ops[..0]) == w;
    } else {
      var before := ops[..n];
      RunOverlapExactly(cfg, w, before);
      forall i | 0 <= i <= n
        ensures before[..i] == ops[..i]
      {
      }
      RunInv(cfg, w, before);
      RunLast(cfg, w, before, ops[n]);
      assert ops == before + [ops[n]] && ops[..n + 1] == ops;
      if NoOverlap(Run(cfg, w, before)) {
        OverlapExactly(cfg, Run(cfg, w, before), ops[n]);
      }
      assert (forall i :: 0 <= i <= n ==> NoOverlap(Run(cfg, w, before[..i]))) ==> NoOverlap(Run(cfg, w, before[..n]));
    }
  }

  lemma {:induction false} RunLast(cfg: Config, w: World, ops: seq<Op>, op: Op)
    ensures Run(cfg, w, ops + [op]) == Apply(cfg, Run(cfg, w, ops), op)
    decreases |ops|
  {
    hide Apply;
    if ops == [] {
      assert [] + [op] == [op] && [op][1..] == [];
    } else {
      assert (ops + [op])[1..] == ops[1..] + [op];
      RunLast(cfg, Apply(cfg, w, ops[0]), ops[1..], op);
    }
  }

  const MISSED := Request("web", Http, "app", 0, "localhost:3000", false, "")

  const MISSING := [Join("a"), Register("a", MISSED, true), Promote("app")]

  /**
    A tunnel named otherwise than its subdomain survives the promotion of that subdomain: after these
    three operations it is both a tunnel and an app.
  */
  lemma EvictionMisses(cfg: Config)
    ensures var w := Run(cfg, Start({}), MISSING);
            HoldsHttp(w.reg, "a", "app") && "app" in w.reg.bySubdomain && "app" in w.apps && !NoOverlap(w)
  {
    hide BuildPublicHTTPURL;
    var w := Start({});
    var joined := w.(reg := AddClient(w.reg, "a"));
    var t := HttpTunnel(MISSED);
    var held := joined.(reg := RegisterHTTP(joined.reg, "a", t));
    RunLast(cfg, w, [], MISSING[0]);
    RunLast(cfg, w, MISSING[..1], MISSING[1]);
    RunLast(cfg, w, MISSING[..2], MISSING[2]);
    assert [] + [MISSING[0]] == MISSING[..1] && MISSING[..1] + [MISSING[1]] == MISSING[..2];
    assert MISSING[..2] + [MISSING[2]] == MISSING;
    assert Run(cfg, w, MISSING[..1]) == joined;
    assert Run(cfg, w, MISSING[..2]) == held;
    assert held.reg.byID["a"] == [t];
    assert IndexOfName([t], "app") == 1;
    assert t in Run(cfg, w, MISSING).reg.byID["a"];
  }

  predicate NamesDistinct(ts: seq<Tunnel>) {
    forall i, j :: 0 <= i < j < |ts| ==> ts[i].name != ts[j].name
  }

  /** HTTP tunnels are named after their subdomain, and a client's tunnel names differ. */
  ghost predicate WellNamed(r: Reg) {
    forall id :: id in r.byID ==>
      NamesDistinct(r.byID[id]) && forall t :: t in r.byID[id] && t.kind.HTTP? ==> t.name == t.subdomain
  }

  /** A registration that keeps to this. */
  predicate NamesWell(w: World, op: Op) {
    op.Register? && op.id in w.reg.byID ==>
      && (op.q.kind.Http? ==> Subdomain(op.q) == op.q.name)
      && (forall t :: t in w.reg.byID[op.id] ==> t.name != op.q.name)
  }

  lemma NamesDistinctWithout(ts: seq<Tunnel>, i: nat)
    requires NamesDistinct(ts) && i < |ts|
    ensures NamesDistinct(Without(ts, i)) && forall t :: t in Without(ts, i) ==> t in ts
  {
    var u := Without(ts, i);
    forall a, b | 0 <= a < b < |u|
      ensures u[a].name != u[b].name
    {
      assert u[a] == ts[if a < i then a else a + 1] && u[b] == ts[if b < i then b else b + 1];
    }
  }

  lemma WellNamedWithout(r: Reg, id: string, name: string)
    requires WellNamed(r)
    ensures WellNamed(RemoveTunnel(r, id, name))
  {
    if HasTunnel(r, id, name) {
      NamesDistinctWithout(r.byID[id], IndexOfName(r.byID[id], name));
      hide NamesDistinct, Without, IndexOfName;
    }
  }

  lemma WellNamedUpdate(r: Reg, id: string, name: string, dir: string)
    requires WellNamed(r)
    ensures WellNamed(SetDir(r, id, name, dir))
  {
    if HasTunnel(r, id, name) {
      var ts, us := r.byID[id], SetDir(r, id, name, dir).byID[id];
      assert forall i :: 0 <= i < |ts| ==> us[i].name == ts[i].name && ts[i] in ts;
      forall u | u in us && u.kind.HTTP?
        ensures u.name == u.subdomain
      {
        var i :| 0 <= i < |us| && us[i] == u;
        assert ts[i] in ts && us[i].kind == ts[i].kind && us[i].subdomain == ts[i].subdomain;
      }
    }
  }

  lemma EvictionTakesWellNamed(r: Reg, name: string)
    requires HttpInv(r) && WellNamed(r) && name in r.bySubdomain
    ensures EvictionTakes(r, name)
  {
    var id := r.bySubdomain[name];
    assert Routes(r, name, id) && HoldsHttp(r, id, name);
    var ts := r.byID[id];
    var t :| t in ts && t.kind.HTTP? && t.subdomain == name;
    var i :| 0 <= i < |ts| && ts[i] == t;
    assert IndexOfName(ts, name) == i;
  }

  lemma ApplyNoOverlap(cfg: Config, w: World, op: Op)
    requires Inv(w) && WellNamed(w.reg) && NoOverlap(w) && NamesWell(w, op)
    ensures WellNamed(Apply(cfg, w, op).reg) && NoOverlap(Apply(cfg, w, op))
  {
    hide TcpInv;
    match op
    case Join(id) =>
    case Register(id, q, granted) =>
    case Leave(id) =>
    case Remove(id, name) => WellNamedWithout(w.reg, id, name);
    case SetTunnelDir(id, name, dir) => WellNamedUpdate(w.reg, id, name, dir);
    case Promote(name) =>
      EvictionExact(w.reg, name);
      if name in w.reg.bySubdomain {
        EvictionTakesWellNamed(w.reg, name);
        WellNamedWithout(w.reg, w.reg.bySubdomain[name], name);
      }
    case StopApp(name) =>
  }

  ghost predicate AllNameWell(cfg: Config, w: World, ops: seq<Op>)
    decreases |ops|
  {
    ops == [] || (NamesWell(w, ops[0]) && AllNameWell(cfg, Apply(cfg, w, ops[0]), ops[1..]))
  }

  lemma {:induction false} RunNoOverlap(cfg: Config, w: World, ops: seq<Op>)
    requires Inv(w) && WellNamed(w.reg) && NoOverlap(w) && AllNameWell(cfg, w, ops)
    ensures NoOverlap(Run(cfg, w, ops))
    decreases |ops|
  {
    if ops != [] {
      ApplyInv(cfg, w, ops[0]);
      ApplyNoOverlap(cfg, w, ops[0]);
      RunNoOverlap(cfg, Apply(cfg, w, ops[0]), ops[1..]);
    }
  }

  /** From a fresh start with any loaded apps, no subdomain is ever both a registered tunnel and a deployed app. */
  lemma NeverTunnelAndApp(cfg: Config, apps: set<string>, ops: seq<Op>)
    requires AllNameWell(cfg, Start(apps), ops)
    ensures NoOverlap(Run(cfg, Start(apps), ops))
  {
    StartInv(apps);
    RunNoOverlap(cfg, Start(apps), ops);
  }
}
