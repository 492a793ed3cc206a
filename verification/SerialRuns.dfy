/** Every operation taken one at a time is a run of the interleaved system in which nothing else happens. */
module SerialRuns {
  import opened RegistryModel
  import opened PublicUrl
  import opened Protocol
  import Sessions
  import Serial
  import SessionSafety

  type Sys = Sessions.Sys
  type Step = Sessions.Step

  /** The interleaved system is between operations, and its registry, apps and socket numbers are those of w. */
  ghost predicate Between(s: Sys, w: Serial.World) {
    && s.reg == w.reg && s.apps == w.apps && s.serial == w.serial
    && forall id :: id in s.reg.byID ==> id in s.handlers && s.handlers[id].pc.Idle?
  }

  function WorldOf(s: Sys): Serial.World {
    Serial.World(s.reg, s.apps, s.serial)
  }

  lemma Then(cfg: Config, s: Sys, a: seq<Step>, b: seq<Step>) returns (steps: seq<Step>)
    ensures steps == a + b && Sessions.Run(cfg, s, steps) == Sessions.Run(cfg, Sessions.Run(cfg, s, a), b)
  {
    steps := a + b;
    Sessions.RunAppend(cfg, s, a, b);
  }

  lemma One(cfg: Config, s: Sys, step: Step)
    ensures Sessions.Run(cfg, s, [step]) == Sessions.Next(cfg, s, step)
  {
    assert [step][1..] == [];
  }

  lemma GotoSame(s: Sys, id: string)
    requires id in s.handlers
    ensures Sessions.Goto(s, id, s.handlers[id].pc) == s
  {
    assert s.handlers[id := s.handlers[id].(pc := s.handlers[id].pc)] == s.handlers;
  }

  /** The handler's record while it handles q. */
  predicate Handling(s: Sys, id: string, q: Request, pc: Sessions.PC) {
    && id in s.handlers && id in s.reg.byID && s.handlers[id].pc == pc
    && s.handlers[id].received != [] && Sessions.Last(s.handlers[id]) == q
  }

  /** The outcome of an operation of handler id: the new registry and socket number, and the reply to send. */
  function Outcome(s: Sys, id: string, result: (Serial.World, Reply)): Sys
    requires id in s.handlers
  {
    Sessions.Goto(s.(reg := result.0.reg, serial := result.0.serial), id, Sessions.Answer(result.1))
  }

  /** The probes of pickTCPPort, one critical section each. */
  lemma {:induction false} PickIsRun(cfg: Config, s: Sys, id: string, q: Request, next: int) returns (steps: seq<Step>)
    requires Handling(s, id, q, Sessions.PickFrom(cfg, q, next))
    ensures Sessions.Run(cfg, s, steps) ==
            Sessions.Goto(s, id, match Serial.PickPort(cfg, s.reg, next)
                                 case None => Sessions.Answer(Refused(q.name, NoPort))
                                 case Some(p) => Sessions.PortChosen(cfg, q, p))
    decreases cfg.tcpPortMax + 1 - next
  {
    if next > cfg.tcpPortMax {
      steps := [];
      GotoSame(s, id);
    } else {
      One(cfg, s, Sessions.Act(id));
      var t := Sessions.Next(cfg, s, Sessions.Act(id));
      if next in s.reg.byPort {
        var rest := PickIsRun(cfg, t, id, q, next + 1);
        steps := Then(cfg, s, [Sessions.Act(id)], rest);
      } else {
        steps := [Sessions.Act(id)];
      }
    }
  }

  /** What registerTCP does once it has a port. */
  function WithPort(cfg: Config, w: Serial.World, id: string, q: Request, port: int, granted: bool): (Serial.World, Reply)
    requires id in w.reg.byID
  {
    if !Allowed(cfg, port) then (w, Refused(q.name, PortNotAllowed))
    else if port in w.reg.byPort then (w, Refused(q.name, PortInUse))
    else if !granted || PortOpen(w.reg, port) then (w, Refused(q.name, ListenFailed))
    else (Serial.StorePort(w, id, q, port), Registered(q.name, BuildTcpURL(cfg, port)))
  }

  lemma ListenIsRun(cfg: Config, s: Sys, id: string, q: Request, port: int, granted: bool) returns (steps: seq<Step>)
    requires Handling(s, id, q, Sessions.Listening(port)) && Allowed(cfg, port) && port !in s.reg.byPort
    ensures Sessions.Run(cfg, s, steps) == Outcome(s, id, WithPort(cfg, WorldOf(s), id, q, port, granted))
  {
    hide BuildPublicHTTPURL, BuildTcpURL, Sessions.Run, RegisterTCP, PortOpen;
    var listen := Sessions.ListenReturns(id, granted);
    One(cfg, s, listen);
    steps := [listen];
    if granted && !PortOpen(s.reg, port) {
      var t := Sessions.Next(cfg, s, listen);
      One(cfg, t, Sessions.Act(id));
      steps := Then(cfg, s, steps, [Sessions.Act(id)]);
    }
  }

  /** From a chosen port to the reply: the allowed list, the check, Listen, and the store. */
  lemma PortIsRun(cfg: Config, s: Sys, id: string, q: Request, port: int, granted: bool) returns (steps: seq<Step>)
    requires Handling(s, id, q, Sessions.PortChosen(cfg, q, port))
    ensures Sessions.Run(cfg, s, steps) == Outcome(s, id, WithPort(cfg, WorldOf(s), id, q, port, granted))
  {
    if !Allowed(cfg, port) {
      steps := [];
      GotoSame(s, id);
    } else {
      One(cfg, s, Sessions.Act(id));
      steps := [Sessions.Act(id)];
      if port !in s.reg.byPort {
        var t := Sessions.Next(cfg, s, Sessions.Act(id));
        var rest := ListenIsRun(cfg, t, id, q, port, granted);
        steps := Then(cfg, s, steps, rest);
        OutcomeAfter(s, id, Sessions.Listening(port), WithPort(cfg, WorldOf(s), id, q, port, granted));
      }
    }
  }

  lemma OutcomeAfter(s: Sys, id: string, pc: Sessions.PC, result: (Serial.World, Reply))
    requires id in s.handlers
    ensures Outcome(Sessions.Goto(s, id, pc), id, result) == Outcome(s, id, result)
  {
  }

  /** Handling one registration, from its message to its reply, with no other step in between. */
  lemma RegisterIsRun(cfg: Config, s: Sys, id: string, q: Request, granted: bool) returns (steps: seq<Step>)
    requires id in s.handlers && s.handlers[id].pc.Idle? && id in s.reg.byID
    ensures var h := s.handlers[id];
            var (w', reply) := Serial.DoRegister(cfg, WorldOf(s), id, q, granted);
            Sessions.Run(cfg, s, steps) ==
            s.(reg := w'.reg, serial := w'.serial,
               handlers := s.handlers[id := Sessions.Handler(Sessions.Idle, h.received + [q], h.replies + [reply])])
  {
    var (w', reply) := Serial.DoRegister(cfg, WorldOf(s), id, q, granted);
    One(cfg, s, Sessions.Receive(id, q));
    var t := Sessions.Next(cfg, s, Sessions.Receive(id, q));
    var middle := HandleIsRun(cfg, t, id, q, granted);
    steps := Then(cfg, s, [Sessions.Receive(id, q)], middle);
    var u := Sessions.Run(cfg, s, steps);
    One(cfg, u, Sessions.Act(id));
    steps := Then(cfg, s, steps, [Sessions.Act(id)]);
  }

  lemma HandleIsRun(cfg: Config, s: Sys, id: string, q: Request, granted: bool) returns (steps: seq<Step>)
    requires Handling(s, id, q, Sessions.Dispatch(cfg, q))
    ensures Sessions.Run(cfg, s, steps) == Outcome(s, id, Serial.DoRegister(cfg, WorldOf(s), id, q, granted))
  {
    match q.kind
    case Http => steps := HttpIsRun(cfg, s, id, q);
    case Unknown(_) =>
      steps := [];
      GotoSame(s, id);
    case Tcp => steps := TcpIsRun(cfg, s, id, q, granted);
  }

  lemma TcpIsRun(cfg: Config, s: Sys, id: string, q: Request, granted: bool) returns (steps: seq<Step>)
    requires Handling(s, id, q, Sessions.Dispatch(cfg, q)) && q.kind.Tcp?
    ensures Sessions.Run(cfg, s, steps) == Outcome(s, id, Serial.DoRegister(cfg, WorldOf(s), id, q, granted))
  {
    var p := Serial.ChoosePort(cfg, s.reg, q);
    if q.remotePort != 0 {
      steps := PortIsRun(cfg, s, id, q, q.remotePort, granted);
    } else if cfg.tcpPortMin == 0 {
      steps := [];
      GotoSame(s, id);
    } else {
      steps := PickIsRun(cfg, s, id, q, cfg.tcpPortMin);
      if p.Some? {
        var t := Sessions.Run(cfg, s, steps);
        var rest := PortIsRun(cfg, t, id, q, p.value, granted);
        steps := Then(cfg, s, steps, rest);
        OutcomeAfter(s, id, Sessions.PortChosen(cfg, q, p.value), WithPort(cfg, WorldOf(s), id, q, p.value, granted));
      }
    }
  }

  lemma HttpIsRun(cfg: Config, s: Sys, id: string, q: Request) returns (steps: seq<Step>)
    requires Handling(s, id, q, Sessions.SubdomainCheck) && q.kind.Http?
    ensures Sessions.Run(cfg, s, steps) == Outcome(s, id, Serial.DoRegister(cfg, WorldOf(s), id, q, true))
  {
    hide BuildPublicHTTPURL, BuildTcpURL;
    var act := [Sessions.Act(id)];
    One(cfg, s, act[0]);
    steps := act;
    if Subdomain(q) !in s.reg.bySubdomain {
      var t := Sessions.Next(cfg, s, act[0]);
      var rest := AppsIsRun(cfg, t, id, q);
      steps := Then(cfg, s, steps, rest);
      OutcomeAfter(s, id, Sessions.AppsCheck, Serial.DoRegister(cfg, WorldOf(s), id, q, true));
    }
  }

  lemma AppsIsRun(cfg: Config, s: Sys, id: string, q: Request) returns (steps: seq<Step>)
    requires Handling(s, id, q, Sessions.AppsCheck) && q.kind.Http? && Subdomain(q) !in s.reg.bySubdomain
    ensures Sessions.Run(cfg, s, steps) == Outcome(s, id, Serial.DoRegister(cfg, WorldOf(s), id, q, true))
  {
    hide BuildPublicHTTPURL, BuildTcpURL;
    var act := [Sessions.Act(id)];
    One(cfg, s, act[0]);
    steps := act;
    if Subdomain(q) !in s.apps {
      var t := Sessions.Next(cfg, s, act[0]);
      One(cfg, t, act[0]);
      steps := Then(cfg, s, steps, act);
      OutcomeAfter(s, id, Sessions.HttpStore, Serial.DoRegister(cfg, WorldOf(s), id, q, true));
    }
  }

  /** A joining client's id is new to the whole system. */
  predicate Fresh(s: Sys, op: Serial.Op) {
    op.Join? ==> op.id !in s.handlers
  }

  lemma OpIsRun(cfg: Config, s: Sys, w: Serial.World, op: Serial.Op) returns (steps: seq<Step>)
    requires Between(s, w) && Fresh(s, op)
    ensures Between(Sessions.Run(cfg, s, steps), Serial.Apply(cfg, w, op))
    ensures Sessions.Run(cfg, s, steps).handlers.Keys <= s.handlers.Keys + Joined(op)
  {
    match op
    case Join(id) =>
      One(cfg, s, Sessions.Connect(id));
      One(cfg, Sessions.Next(cfg, s, Sessions.Connect(id)), Sessions.Act(id));
      steps := Then(cfg, s, [Sessions.Connect(id)], [Sessions.Act(id)]);
    case Register(id, q, granted) =>
      steps := [];
      if id in w.reg.byID {
        steps := RegisterIsRun(cfg, s, id, q, granted);
        StillBetween(cfg, s, w, id, q, granted, Sessions.Run(cfg, s, steps));
      }
    case Leave(id) =>
      steps := [];
      if id in w.reg.byID {
        One(cfg, s, Sessions.HangUp(id));
        One(cfg, Sessions.Next(cfg, s, Sessions.HangUp(id)), Sessions.Act(id));
        steps := Then(cfg, s, [Sessions.HangUp(id)], [Sessions.Act(id)]);
      }
    case Remove(id, name) =>
      steps := [Sessions.AdminRemove(id, name)];
      One(cfg, s, steps[0]);
    case SetTunnelDir(id, name, dir) =>
      steps := [Sessions.AdminSetDir(id, name, dir)];
      One(cfg, s, steps[0]);
    case Promote(name) =>
      steps := [];
      if name !in w.apps {
        steps := [Sessions.ChangeApps(w.apps + {name})];
        One(cfg, s, steps[0]);
        if name in w.reg.bySubdomain {
          var t := Sessions.Next(cfg, s, steps[0]);
          One(cfg, t, Sessions.AdminRemove(w.reg.bySubdomain[name], name));
          steps := Then(cfg, s, steps, [Sessions.AdminRemove(w.reg.bySubdomain[name], name)]);
        }
      }
    case StopApp(name) =>
      steps := [Sessions.ChangeApps(w.apps - {name})];
      One(cfg, s, steps[0]);
  }

  lemma StillBetween(cfg: Config, s: Sys, w: Serial.World, id: string, q: Request, granted: bool, t: Sys)
    requires Between(s, w) && id in w.reg.byID
    requires var (w', reply) := Serial.DoRegister(cfg, w, id, q, granted);
             t.reg == w'.reg && t.serial == w'.serial && t.apps == s.apps &&
             id in t.handlers && t.handlers[id].pc.Idle? && t.handlers == s.handlers[id := t.handlers[id]]
    ensures Between(t, Serial.Apply(cfg, w, Serial.Register(id, q, granted)))
  {
    var w' := Serial.DoRegister(cfg, w, id, q, granted).0;
    assert w'.apps == w.apps;
    assert w'.reg.byID.Keys == w.reg.byID.Keys;
  }

  // ----- whole serial runs

  function Joined(op: Serial.Op): set<string> {
    if op.Join? then {op.id} else {}
  }

  /** Every joining client has an id that no client had before. */
  ghost predicate JoinsFresh(ops: seq<Serial.Op>, used: set<string>)
    decreases |ops|
  {
    ops == [] || (Joined(ops[0]) !! used && JoinsFresh(ops[1..], used + Joined(ops[0])))
  }

  /** A run of serial operations is one run of the interleaved system. */
  lemma {:induction false} RunIsRun(cfg: Config, s: Sys, w: Serial.World, ops: seq<Serial.Op>) returns (steps: seq<Step>)
    requires Between(s, w) && JoinsFresh(ops, s.handlers.Keys)
    ensures Between(Sessions.Run(cfg, s, steps), Serial.Run(cfg, w, ops))
    decreases |ops|
  {
    steps := [];
    if ops != [] {
      hide Between, Serial.Apply;
      var first := OpIsRun(cfg, s, w, ops[0]);
      var t := Sessions.Run(cfg, s, first);
      FreshLater(ops[1..], s.handlers.Keys + Joined(ops[0]), t.handlers.Keys);
      var rest := RunIsRun(cfg, t, Serial.Apply(cfg, w, ops[0]), ops[1..]);
      steps := Then(cfg, s, first, rest);
    }
  }

  lemma {:induction false} FreshLater(ops: seq<Serial.Op>, used: set<string>, fewer: set<string>)
    requires JoinsFresh(ops, used) && fewer <= used
    ensures JoinsFresh(ops, fewer)
    decreases |ops|
  {
    if ops != [] {
      FreshLater(ops[1..], used + Joined(ops[0]), fewer + Joined(ops[0]));
    }
  }

  /** So whatever holds of the registry under every interleaving holds after every serial run from a fresh start. */
  lemma SerialIsReachable(cfg: Config, apps: set<string>, ops: seq<Serial.Op>) returns (s: Sys)
    requires JoinsFresh(ops, {})
    ensures SessionSafety.Reachable(cfg, s) && Between(s, Serial.Run(cfg, Serial.Start(apps), ops))
  {
    var start := [Sessions.ChangeApps(apps)];
    One(cfg, Sessions.INIT, start[0]);
    var t := Sessions.Run(cfg, Sessions.INIT, start);
    assert t.handlers.Keys == {};
    var rest := RunIsRun(cfg, t, Serial.Start(apps), ops);
    var steps := Then(cfg, Sessions.INIT, start, rest);
    s := Sessions.Run(cfg, Sessions.INIT, steps);
  }
}
