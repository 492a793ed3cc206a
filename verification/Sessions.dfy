/**
  The server's control sessions in every interleaving. Each client has a handler with a program
  counter; a step is one critical section of the registry lock, one call of the operating system, or
  one message of one handler, or the change an admin request makes. Steps of different handlers and
  requests come in any order; a step that cannot be taken in a state leaves it as it is.
*/
module Sessions {
  import opened RegistryModel
  import opened RegistryFacts
  import opened PublicUrl
  import opened Protocol

  datatype PC =
    | Authed                               // authenticated, about to add itself to the registry
    | Idle                                 // waiting for a control message
    | SubdomainCheck | AppsCheck | HttpStore
    | PickPort(next: int) | PortCheck(port: int) | Listening(port: int) | TcpStore(port: int, ln: Listener)
    | Answer(reply: Reply)                 // about to send the reply
    | Closing                              // the loop has returned, about to remove itself
    | Gone

  /** A handler, with the registrations it has decoded and the replies it has sent. */
  datatype Handler = Handler(pc: PC, received: seq<Request>, replies: seq<Reply>)

  /** `serial` numbers the sockets; `crashed` records a use of an absent `byID` entry. */
  datatype Sys = Sys(reg: Reg, handlers: map<string, Handler>, apps: set<string>, serial: nat, crashed: bool)

  datatype Step =
    | Connect(id: string)                  // a client authenticates and gets a fresh id
    | Receive(id: string, q: Request)      // the handler decodes a registration
    | HangUp(id: string)                   // receiving fails, the loop returns
    | Act(id: string)                      // the handler's next critical section, or sending its reply
    | ListenReturns(id: string, granted: bool)
    | AdminRemove(id: string, name: string)
    | AdminSetDir(id: string, name: string, dir: string)
    | ChangeApps(apps: set<string>)        // promotions and stops

  const INIT := Sys(EMPTY, map[], {}, 0, false)

  // ----- one handler

  function Last(h: Handler): Request
    requires h.received != []
  {
    h.received[|h.received| - 1]
  }

  predicate InSession(pc: PC) {
    !pc.Authed? && !pc.Gone?
  }

  predicate Busy(pc: PC) {
    InSession(pc) && !pc.Idle? && !pc.Closing?
  }

  function PortChosen(cfg: Config, q: Request, port: int): PC {
    if Allowed(cfg, port) then PortCheck(port) else Answer(Refused(q.name, PortNotAllowed))
  }

  function PickFrom(cfg: Config, q: Request, next: int): PC {
    if next <= cfg.tcpPortMax then PickPort(next) else Answer(Refused(q.name, NoPort))
  }

  /** Where handling a registration starts. */
  function Dispatch(cfg: Config, q: Request): PC {
    match q.kind
    case Http => SubdomainCheck
    case Tcp =>
      if q.remotePort != 0 then PortChosen(cfg, q, q.remotePort)
      else if cfg.tcpPortMin == 0 then Answer(Refused(q.name, NoPort))
      else PickFrom(cfg, q, cfg.tcpPortMin)
    case Unknown(_) => Answer(Refused(q.name, UnknownType))
  }

  function Goto(s: Sys, id: string, pc: PC): Sys
    requires id in s.handlers
  {
    s.(handlers := s.handlers[id := s.handlers[id].(pc := pc)])
  }

  function DoAct(cfg: Config, s: Sys, id: string): Sys
    requires id in s.handlers
  {
    var h := s.handlers[id];
    match h.pc
    case Authed => Goto(s.(reg := AddClient(s.reg, id)), id, Idle)
    case Closing => Goto(s.(reg := RemoveClient(s.reg, id)), id, Gone)
    case Answer(reply) => s.(handlers := s.handlers[id := Handler(Idle, h.received, h.replies + [reply])])
    case Idle => s
    case Gone => s
    case Listening(_) => s
    case _ => if h.received == [] then s else DoHandle(cfg, s, id, Last(h))
  }

  /** The critical sections of handling registration q. */
  function DoHandle(cfg: Config, s: Sys, id: string, q: Request): Sys
    requires id in s.handlers
  {
    match s.handlers[id].pc
    case SubdomainCheck =>
      Goto(s, id, if Subdomain(q) in s.reg.bySubdomain then Answer(Refused(q.name, SubdomainInUse)) else AppsCheck)
    case AppsCheck =>
      Goto(s, id, if Subdomain(q) in s.apps then Answer(Refused(q.name, DeployedAppThere)) else HttpStore)
    case HttpStore =>
      if id !in s.reg.byID then s.(crashed := true) else
      Goto(s.(reg := RegisterHTTP(s.reg, id, HttpTunnel(q))), id,
           Answer(Registered(q.name, BuildPublicHTTPURL(cfg, Subdomain(q)))))
    case PickPort(next) =>
      Goto(s, id, if next in s.reg.byPort then PickFrom(cfg, q, next + 1) else PortChosen(cfg, q, next))
    case PortCheck(port) =>
      Goto(s, id, if port in s.reg.byPort then Answer(Refused(q.name, PortInUse)) else Listening(port))
    case TcpStore(port, ln) =>
      if id !in s.reg.byID then s.(crashed := true) else
      Goto(s.(reg := RegisterTCP(s.reg, id, TcpTunnel(q, ln, port))), id,
           Answer(Registered(q.name, BuildTcpURL(cfg, port))))
    case _ => s
  }

  /** net.Listen: it may fail for any reason, and must when a listener already has the port. */
  function DoListen(s: Sys, id: string, granted: bool): Sys
    requires id in s.handlers
  {
    var h := s.handlers[id];
    if !h.pc.Listening? || h.received == [] then s
    else if granted && !PortOpen(s.reg, h.pc.port) then
      var l := Listener(h.pc.port, s.serial);
      Goto(s.(reg := s.reg.(open := s.reg.open + {l}), serial := s.serial + 1), id, TcpStore(h.pc.port, l))
    else Goto(s, id, Answer(Refused(Last(h).name, ListenFailed)))
  }

  function DoReceive(cfg: Config, s: Sys, id: string, q: Request): Sys
    requires id in s.handlers
  {
    var h := s.handlers[id];
    if !h.pc.Idle? then s
    else s.(handlers := s.handlers[id := Handler(Dispatch(cfg, q), h.received + [q], h.replies)])
  }

  function Next(cfg: Config, s: Sys, step: Step): Sys {
    match step
    case Connect(id) => if id in s.handlers then s else s.(handlers := s.handlers[id := Handler(Authed, [], [])])
    case Receive(id, q) => if id in s.handlers then DoReceive(cfg, s, id, q) else s
    case HangUp(id) => if id in s.handlers && s.handlers[id].pc.Idle? then Goto(s, id, Closing) else s
    case Act(id) => if id in s.handlers then DoAct(cfg, s, id) else s
    case ListenReturns(id, granted) => if id in s.handlers then DoListen(s, id, granted) else s
    case AdminRemove(id, name) => s.(reg := RemoveTunnel(s.reg, id, name))
    case AdminSetDir(id, name, dir) => s.(reg := SetDir(s.reg, id, name, dir))
    case ChangeApps(apps) => s.(apps := apps)
  }

  function Run(cfg: Config, s: Sys, steps: seq<Step>): Sys
    decreases |steps|
  {
    if steps == [] then s else Run(cfg, Next(cfg, s, steps[0]), steps[1..])
  }

  lemma {:induction false} RunAppend(cfg: Config, s: Sys, a: seq<Step>, b: seq<Step>)
    ensures Run(cfg, s, a + b) == Run(cfg, Run(cfg, s, a), b)
    decreases |a|
  {
    if a == [] {
      assert a + b == b;
    } else {
      assert (a + b)[1..] == a[1..] + b;
      RunAppend(cfg, Next(cfg, s, a[0]), a[1..], b);
    }
  }

  // ----- the invariant

  function Held(handlers: map<string, Handler>): map<string, Listener> {
    map h | h in handlers && handlers[h].pc.TcpStore? :: handlers[h].pc.ln
  }

  /** What a program counter says about the registration being handled. */
  ghost predicate PcOk(cfg: Config, pc: PC, q: Request) {
    match pc
    case SubdomainCheck => q.kind.Http?
    case AppsCheck => q.kind.Http?
    case HttpStore => q.kind.Http?
    case PickPort(next) => q.kind.Tcp? && q.remotePort == 0
    case PortCheck(port) => q.kind.Tcp? && Allowed(cfg, port) && (q.remotePort != 0 ==> port == q.remotePort)
    case Listening(port) => q.kind.Tcp? && Allowed(cfg, port) && (q.remotePort != 0 ==> port == q.remotePort)
    case TcpStore(port, ln) =>
      q.kind.Tcp? && Allowed(cfg, port) && (q.remotePort != 0 ==> port == q.remotePort) && ln.port == port
    case Answer(reply) => Answers(cfg, q, reply)
    case _ => true
  }

  function Answered(h: Handler): int {
    if Busy(h.pc) then |h.received| - 1 else |h.received|
  }

  ghost predicate HandlerOk(cfg: Config, h: Handler) {
    && (Busy(h.pc) ==> h.received != [] && PcOk(cfg, h.pc, Last(h)))
    && |h.replies| == Answered(h)
    && (forall i :: 0 <= i < |h.replies| ==> Answers(cfg, h.received[i], h.replies[i]))
  }

  ghost predicate SessionOk(cfg: Config, s: Sys, id: string) {
    id in s.handlers && HandlerOk(cfg, s.handlers[id]) && (InSession(s.handlers[id].pc) <==> id in s.reg.byID)
  }

  /** The deals a client's tunnels come from: the answered registrations, and one that is about to be. */
  function Sources(h: Handler): seq<Deal> {
    Deals(h.received, h.replies) +
    if h.pc.Answer? && h.pc.reply.Registered? && h.received != [] then [Deal(Last(h), h.pc.reply)] else []
  }

  ghost predicate ListedOk(cfg: Config, s: Sys, id: string)
    requires id in s.reg.byID && id in s.handlers
  {
    Subsequence(cfg, s.reg.byID[id], Sources(s.handlers[id]))
  }

  ghost predicate Inv(cfg: Config, s: Sys) {
    && !s.crashed
    && TcpInv(s.reg, Held(s.handlers))
    && HttpSound(s.reg)
    && (forall l :: l in s.reg.open ==> l.serial < s.serial)
    && (forall id :: id in s.handlers ==> SessionOk(cfg, s, id))
    && (forall id :: id in s.reg.byID ==> id in s.handlers && ListedOk(cfg, s, id))
  }

  lemma InitInv(cfg: Config)
    ensures Inv(cfg, INIT)
  {
    assert Held(INIT.handlers) == map[];
  }

  ghost predicate SameEntry<V>(m: map<string, V>, n: map<string, V>, i: string) {
    (i in m <==> i in n) && (i in m ==> m[i] == n[i])
  }

  /** A step that concerns one client leaves the others' sessions as they were. */
  lemma OneClient(cfg: Config, s: Sys, t: Sys, id: string)
    requires Inv(cfg, s) && !t.crashed
    requires forall i :: i != id ==> SameEntry(s.handlers, t.handlers, i)
    requires forall i :: i != id ==> SameEntry(s.reg.byID, t.reg.byID, i)
    requires TcpInv(t.reg, Held(t.handlers)) && HttpSound(t.reg)
    requires forall l :: l in t.reg.open ==> l.serial < t.serial
    requires SessionOk(cfg, t, id) && (id in t.reg.byID ==> ListedOk(cfg, t, id))
    ensures Inv(cfg, t)
  {
    hide TcpInv, HttpSound, Subsequence, BuildPublicHTTPURL, BuildTcpURL;
    forall i | i in t.handlers && i != id
      ensures SessionOk(cfg, t, i)
    {
      assert SameEntry(s.handlers, t.handlers, i) && SameEntry(s.reg.byID, t.reg.byID, i);
      assert SessionOk(cfg, s, i);
    }
    forall i | i in t.reg.byID && i != id
      ensures i in t.handlers && ListedOk(cfg, t, i)
    {
      assert SameEntry(s.handlers, t.handlers, i) && SameEntry(s.reg.byID, t.reg.byID, i);
      assert ListedOk(cfg, s, i);
    }
  }

  /** Without a socket to register, before and after, a handler's record does not show among the held sockets. */
  lemma HeldSame(handlers: map<string, Handler>, id: string, h: Handler)
    requires (id in handlers ==> !handlers[id].pc.TcpStore?) && !h.pc.TcpStore?
    ensures Held(handlers[id := h]) == Held(handlers)
  {
  }

  /** A handler changes its own record only, and neither gets nor gives up a socket. */
  lemma OwnRecord(cfg: Config, s: Sys, id: string, h: Handler)
    requires Inv(cfg, s) && id in s.handlers
    requires !s.handlers[id].pc.TcpStore? && !h.pc.TcpStore?
    requires HandlerOk(cfg, h) && (InSession(h.pc) <==> InSession(s.handlers[id].pc))
    requires id in s.reg.byID ==> ListedOk(cfg, s.(handlers := s.handlers[id := h]), id)
    ensures Inv(cfg, s.(handlers := s.handlers[id := h]))
  {
    hide TcpInv, HttpSound, Subsequence, Held, BuildPublicHTTPURL, BuildTcpURL;
    var t := s.(handlers := s.handlers[id := h]);
    assert SessionOk(cfg, s, id);
    HeldSame(s.handlers, id, h);
    OneClient(cfg, s, t, id);
  }

  lemma ConnectInv(cfg: Config, s: Sys, id: string)
    requires Inv(cfg, s) && id !in s.handlers
    ensures Inv(cfg, s.(handlers := s.handlers[id := Handler(Authed, [], [])]))
  {
    hide TcpInv, HttpSound, Subsequence, Held, BuildPublicHTTPURL, BuildTcpURL;
    var t := s.(handlers := s.handlers[id := Handler(Authed, [], [])]);
    HeldSame(s.handlers, id, Handler(Authed, [], []));
    OneClient(cfg, s, t, id);
  }

  lemma DispatchOk(cfg: Config, q: Request)
    ensures Busy(Dispatch(cfg, q)) && !Dispatch(cfg, q).TcpStore? && PcOk(cfg, Dispatch(cfg, q), q)
    ensures Dispatch(cfg, q).Answer? ==> Dispatch(cfg, q).reply.Refused?
  {
    hide BuildPublicHTTPURL, BuildTcpURL;
  }

  lemma ReceiveInv(cfg: Config, s: Sys, id: string, q: Request)
    requires Inv(cfg, s) && id in s.handlers && s.handlers[id].pc.Idle?
    ensures Inv(cfg, DoReceive(cfg, s, id, q))
  {
    hide TcpInv, HttpSound, Subsequence;
    assert SessionOk(cfg, s, id) && ListedOk(cfg, s, id);
    var h := s.handlers[id];
    var g := Handler(Dispatch(cfg, q), h.received + [q], h.replies);
    DispatchOk(cfg, q);
    assert Sources(g) == Sources(h);
    hide Dispatch, PcOk, Answers;
    assert HandlerOk(cfg, g);
    OwnRecord(cfg, s, id, g);
  }

  lemma AddInv(cfg: Config, s: Sys, id: string)
    requires Inv(cfg, s) && id in s.handlers && s.handlers[id].pc.Authed?
    ensures Inv(cfg, DoAct(cfg, s, id))
  {
    hide TcpInv, HttpSound, Subsequence, Held, BuildPublicHTTPURL, BuildTcpURL;
    var t := DoAct(cfg, s, id);
    assert SessionOk(cfg, s, id);
    HeldSame(s.handlers, id, t.handlers[id]);
    AddClientTcp(s.reg, Held(s.handlers), id);
    AddClientSound(s.reg, id);
    SubsequenceEmpty(cfg, Sources(t.handlers[id]));
    OneClient(cfg, s, t, id);
  }

  lemma RemoveInv(cfg: Config, s: Sys, id: string)
    requires Inv(cfg, s) && id in s.handlers && s.handlers[id].pc.Closing?
    ensures Inv(cfg, DoAct(cfg, s, id))
  {
    hide TcpInv, HttpSound, Subsequence, Held, BuildPublicHTTPURL, BuildTcpURL;
    var t := DoAct(cfg, s, id);
    assert SessionOk(cfg, s, id);
    HeldSame(s.handlers, id, t.handlers[id]);
    RemoveClientTcp(s.reg, Held(s.handlers), id);
    RemoveClientSound(s.reg, id);
    OneClient(cfg, s, t, id);
  }

  /** The handler's record after it has registered its HTTP tunnel. */
  lemma HttpStoreSession(cfg: Config, s: Sys, id: string)
    requires id in s.handlers && s.handlers[id].pc.HttpStore? && id in s.reg.byID
    requires SessionOk(cfg, s, id) && ListedOk(cfg, s, id)
    ensures var t := DoAct(cfg, s, id);
            SessionOk(cfg, t, id) && id in t.reg.byID && ListedOk(cfg, t, id)
  {
    hide BuildPublicHTTPURL, BuildTcpURL, Subsequence;
    var h := s.handlers[id];
    var reply := Registered(Last(h).name, BuildPublicHTTPURL(cfg, Subdomain(Last(h))));
    SubsequenceTake(cfg, s.reg.byID[id], HttpTunnel(Last(h)), Sources(h), Deal(Last(h), reply));
    assert Sources(h.(pc := Answer(reply))) == Sources(h) + [Deal(Last(h), reply)];
  }

  lemma HttpStoreInv(cfg: Config, s: Sys, id: string)
    requires Inv(cfg, s) && id in s.handlers && s.handlers[id].pc.HttpStore?
    ensures Inv(cfg, DoAct(cfg, s, id))
  {
    hide TcpInv, HttpSound, ListedOk, Held, BuildPublicHTTPURL, BuildTcpURL;
    assert SessionOk(cfg, s, id);
    var t, te := DoAct(cfg, s, id), HttpTunnel(Last(s.handlers[id]));
    HttpStoreSession(cfg, s, id);
    HeldSame(s.handlers, id, t.handlers[id]);
    RegisterHTTPTcp(s.reg, Held(s.handlers), id, te);
    RegisterHTTPSound(s.reg, id, te);
    OneClient(cfg, s, t, id);
  }

  /** The handler's record after it has registered its TCP tunnel. */
  lemma TcpStoreSession(cfg: Config, s: Sys, id: string)
    requires id in s.handlers && s.handlers[id].pc.TcpStore? && id in s.reg.byID
    requires SessionOk(cfg, s, id) && ListedOk(cfg, s, id)
    ensures var t := DoAct(cfg, s, id);
            SessionOk(cfg, t, id) && id in t.reg.byID && ListedOk(cfg, t, id) && Held(t.handlers) == Held(s.handlers) - {id}
  {
    hide BuildPublicHTTPURL, BuildTcpURL, Subsequence;
    var h := s.handlers[id];
    var reply := Registered(Last(h).name, BuildTcpURL(cfg, h.pc.port));
    SubsequenceTake(cfg, s.reg.byID[id], TcpTunnel(Last(h), h.pc.ln, h.pc.port), Sources(h), Deal(Last(h), reply));
    assert Sources(h.(pc := Answer(reply))) == Sources(h) + [Deal(Last(h), reply)];
    assert Grantable(cfg, Last(h), h.pc.port);
  }

  lemma TcpStoreInv(cfg: Config, s: Sys, id: string)
    requires Inv(cfg, s) && id in s.handlers && s.handlers[id].pc.TcpStore?
    ensures Inv(cfg, DoAct(cfg, s, id))
  {
    hide TcpInv, HttpSound, ListedOk, BuildPublicHTTPURL, BuildTcpURL;
    var h := s.handlers[id];
    assert SessionOk(cfg, s, id);
    TcpStoreSession(cfg, s, id);
    var te := TcpTunnel(Last(h), h.pc.ln, h.pc.port);
    RegisterTCPTcp(s.reg, Held(s.handlers), id, te);
    RegisterTCPSound(s.reg, id, te);
    OneClient(cfg, s, DoAct(cfg, s, id), id);
  }

  lemma ListenSession(cfg: Config, s: Sys, id: string)
    requires id in s.handlers && s.handlers[id].pc.Listening? && id in s.reg.byID
    requires SessionOk(cfg, s, id) && ListedOk(cfg, s, id)
    requires !PortOpen(s.reg, s.handlers[id].pc.port)
    ensures var t := DoListen(s, id, true);
            && SessionOk(cfg, t, id) && id in t.reg.byID && ListedOk(cfg, t, id)
            && Held(t.handlers) == Held(s.handlers)[id := Listener(s.handlers[id].pc.port, s.serial)]
  {
    hide Subsequence, Answers, BuildPublicHTTPURL, BuildTcpURL;
  }

  lemma ListenInv(cfg: Config, s: Sys, id: string, granted: bool)
    requires Inv(cfg, s) && id in s.handlers
    ensures Inv(cfg, DoListen(s, id, granted))
  {
    hide TcpInv, HttpSound, ListedOk, BuildPublicHTTPURL, BuildTcpURL;
    var h := s.handlers[id];
    assert SessionOk(cfg, s, id);
    if h.pc.Listening? {
      if granted && !PortOpen(s.reg, h.pc.port) {
        var l := Listener(h.pc.port, s.serial);
        ListenSession(cfg, s, id);
        ListenTcp(s.reg, Held(s.handlers), id, l);
        ListenSound(s.reg, l);
        OneClient(cfg, s, DoListen(s, id, granted), id);
      } else {
        RefuseInv(cfg, s, id, ListenFailed);
      }
    }
  }

  lemma RefuseInv(cfg: Config, s: Sys, id: string, why: Refusal)
    requires Inv(cfg, s) && id in s.handlers && s.handlers[id].pc.Listening?
    ensures Inv(cfg, Goto(s, id, Answer(Refused(Last(s.handlers[id]).name, why))))
  {
    hide TcpInv, HttpSound, Subsequence, BuildPublicHTTPURL, BuildTcpURL;
    assert SessionOk(cfg, s, id) && ListedOk(cfg, s, id);
    OwnRecord(cfg, s, id, s.handlers[id].(pc := Answer(Refused(Last(s.handlers[id]).name, why))));
  }

  lemma SendInv(cfg: Config, s: Sys, id: string)
    requires Inv(cfg, s) && id in s.handlers && s.handlers[id].pc.Answer?
    ensures Inv(cfg, DoAct(cfg, s, id))
  {
    hide TcpInv, HttpSound, Subsequence, Answers;
    assert SessionOk(cfg, s, id) && ListedOk(cfg, s, id);
    var h, g := s.handlers[id], DoAct(cfg, s, id).handlers[id];
    var deal := Deal(Last(h), h.pc.reply);
    assert Deals(g.received, g.replies) == Deals(h.received, h.replies) + [deal];
    if h.pc.reply.Refused? {
      assert Sources(h) == Deals(h.received, h.replies);
      SubsequenceSkip(cfg, s.reg.byID[id], Sources(h), deal);
    }
    assert Sources(g) == Deals(h.received, h.replies) + [deal];
    OwnRecord(cfg, s, id, g);
  }

  predicate Reads(pc: PC) {
    pc.SubdomainCheck? || pc.AppsCheck? || pc.PickPort? || pc.PortCheck?
  }

  /** A check moves its handler on, to a program counter that fits the registration. */
  lemma CheckMoves(cfg: Config, s: Sys, id: string) returns (pc: PC)
    requires id in s.handlers && s.handlers[id].received != []
    requires Reads(s.handlers[id].pc) && PcOk(cfg, s.handlers[id].pc, Last(s.handlers[id]))
    ensures DoAct(cfg, s, id) == Goto(s, id, pc) && Busy(pc) && !pc.TcpStore? && PcOk(cfg, pc, Last(s.handlers[id]))
    ensures pc.Answer? ==> pc.reply.Refused?
  {
    hide BuildPublicHTTPURL, BuildTcpURL;
    pc := DoAct(cfg, s, id).handlers[id].pc;
  }

  /** The checks that only read. */
  lemma CheckInv(cfg: Config, s: Sys, id: string)
    requires Inv(cfg, s) && id in s.handlers && Reads(s.handlers[id].pc)
    ensures Inv(cfg, DoAct(cfg, s, id))
  {
    hide TcpInv, HttpSound, Subsequence, Answers;
    assert SessionOk(cfg, s, id) && ListedOk(cfg, s, id);
    var pc := CheckMoves(cfg, s, id);
    hide DoAct, PcOk;
    OwnRecord(cfg, s, id, s.handlers[id].(pc := pc));
  }

  lemma AdminRemoveInv(cfg: Config, s: Sys, id: string, name: string)
    requires Inv(cfg, s)
    ensures Inv(cfg, s.(reg := RemoveTunnel(s.reg, id, name)))
  {
    hide TcpInv, HttpSound, Subsequence, BuildPublicHTTPURL, BuildTcpURL;
    if HasTunnel(s.reg, id, name) {
      assert ListedOk(cfg, s, id) && SessionOk(cfg, s, id);
      RemoveTunnelTcp(s.reg, Held(s.handlers), id, name);
      RemoveTunnelSound(s.reg, id, name);
      SubsequenceWithout(cfg, s.reg.byID[id], IndexOfName(s.reg.byID[id], name), Sources(s.handlers[id]));
      OneClient(cfg, s, s.(reg := RemoveTunnel(s.reg, id, name)), id);
    }
  }

  lemma AdminSetDirInv(cfg: Config, s: Sys, id: string, name: string, dir: string)
    requires Inv(cfg, s)
    ensures Inv(cfg, s.(reg := SetDir(s.reg, id, name, dir)))
  {
    hide TcpInv, HttpSound, Subsequence, BuildPublicHTTPURL, BuildTcpURL;
    if HasTunnel(s.reg, id, name) {
      assert ListedOk(cfg, s, id) && SessionOk(cfg, s, id);
      SetDirTcp(s.reg, Held(s.handlers), id, name, dir);
      SetDirSound(s.reg, id, name, dir);
      SubsequenceUpdate(cfg, s.reg.byID[id], IndexOfName(s.reg.byID[id], name), dir, Sources(s.handlers[id]));
      OneClient(cfg, s, s.(reg := SetDir(s.reg, id, name, dir)), id);
    }
  }

  lemma NextInv(cfg: Config, s: Sys, step: Step)
    requires Inv(cfg, s)
    ensures Inv(cfg, Next(cfg, s, step))
  {
    hide TcpInv, HttpSound, Subsequence, Answers, PcOk;
    match step
    case Connect(id) => if id !in s.handlers { ConnectInv(cfg, s, id); }
    case Receive(id, q) => if id in s.handlers && s.handlers[id].pc.Idle? { ReceiveInv(cfg, s, id, q); }
    case HangUp(id) =>
      if id in s.handlers && s.handlers[id].pc.Idle? {
        assert SessionOk(cfg, s, id) && ListedOk(cfg, s, id);
        OwnRecord(cfg, s, id, s.handlers[id].(pc := Closing));
      }
    case Act(id) =>
      if id in s.handlers {
        match s.handlers[id].pc
        case Authed => AddInv(cfg, s, id);
        case Closing => RemoveInv(cfg, s, id);
        case HttpStore => HttpStoreInv(cfg, s, id);
        case TcpStore(_, _) => TcpStoreInv(cfg, s, id);
        case Idle =>
        case Gone =>
        case Listening(_) =>
        case Answer(_) => SendInv(cfg, s, id);
        case _ => CheckInv(cfg, s, id);
      }
    case ListenReturns(id, granted) => if id in s.handlers { ListenInv(cfg, s, id, granted); }
    case AdminRemove(id, name) => AdminRemoveInv(cfg, s, id, name);
    case AdminSetDir(id, name, dir) => AdminSetDirInv(cfg, s, id, name, dir);
    case ChangeApps(apps) =>
      var t := s.(apps := apps);
      assert forall i :: i in t.handlers ==> SessionOk(cfg, s, i);
      assert forall i :: i in t.reg.byID ==> ListedOk(cfg, s, i);
  }

  /** The invariant holds in every state that any interleaving reaches. */
  lemma {:induction false} RunInv(cfg: Config, s: Sys, steps: seq<Step>)
    requires Inv(cfg, s)
    ensures Inv(cfg, Run(cfg, s, steps))
    decreases |steps|
  {
    if steps != [] {
      NextInv(cfg, s, steps[0]);
      RunInv(cfg, Next(cfg, s, steps[0]), steps[1..]);
    }
  }
}
