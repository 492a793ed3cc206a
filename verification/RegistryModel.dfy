/**
  The value of the tunnel registry: what `Registry` holds at one moment, what each of its critical
  sections does to that value, and the relations between the three maps and the tunnel lists that
  the critical sections keep. The class in Registry.dfy is proved to compute these functions;
  Sessions.dfy and Serial.dfy reason about runs of them.
*/
module RegistryModel {
  import opened Common

  datatype Kind = HTTP | TCP

  /** An open listening socket. The serial number tells apart two sockets that had the same port. */
  datatype Listener = Listener(port: int, serial: nat)

  datatype Tunnel = Tunnel(name: string, kind: Kind, subdomain: string, remotePort: int, localAddr: string,
                           hasDir: bool, dir: string, tcpLn: Option<Listener>)

  /** The three maps, with a client entry standing for its id, and the sockets this process has open. */
  datatype Reg = Reg(byID: map<string, seq<Tunnel>>, bySubdomain: map<string, string>, byPort: map<int, string>,
                     open: set<Listener>)

  const EMPTY := Reg(map[], map[], map[], {})

  // ----- what a tunnel list holds

  function HttpKeys(ts: seq<Tunnel>): set<string> {
    set t | t in ts && t.kind.HTTP? :: t.subdomain
  }

  function TcpPorts(ts: seq<Tunnel>): set<int> {
    set t | t in ts && t.kind.TCP? :: t.remotePort
  }

  function Sockets(ts: seq<Tunnel>): set<Listener> {
    set t | t in ts && t.kind.TCP? && t.tcpLn.Some? :: t.tcpLn.value
  }

  /** The position of the first tunnel with this name, or the length of the list. */
  function IndexOfName(ts: seq<Tunnel>, name: string): (i: nat)
    ensures i <= |ts|
    ensures i < |ts| ==> ts[i].name == name
    ensures forall j :: 0 <= j < i ==> ts[j].name != name
  {
    if ts == [] then 0 else if ts[0].name == name then 0 else 1 + IndexOfName(ts[1..], name)
  }

  function Without(ts: seq<Tunnel>, i: nat): seq<Tunnel>
    requires i < |ts|
  {
    ts[..i] + ts[i + 1..]
  }

  // ----- the critical sections

  function AddClient(r: Reg, id: string): Reg {
    r.(byID := r.byID[id := []])
  }

  function RegisterHTTP(r: Reg, id: string, t: Tunnel): Reg
    requires id in r.byID
  {
    r.(byID := r.byID[id := r.byID[id] + [t]], bySubdomain := r.bySubdomain[t.subdomain := id])
  }

  function RegisterTCP(r: Reg, id: string, t: Tunnel): Reg
    requires id in r.byID
  {
    r.(byID := r.byID[id := r.byID[id] + [t]], byPort := r.byPort[t.remotePort := id])
  }

  /** Dropping the index entries and the sockets of some tunnels, whoever the entries belong to. */
  function Release(r: Reg, ts: seq<Tunnel>): Reg {
    r.(bySubdomain := r.bySubdomain - HttpKeys(ts), byPort := r.byPort - TcpPorts(ts), open := r.open - Sockets(ts))
  }

  function RemoveClient(r: Reg, id: string): Reg {
    if id !in r.byID then r else
      var q := Release(r, r.byID[id]);
      q.(byID := r.byID - {id})
  }

  predicate HasTunnel(r: Reg, id: string, name: string) {
    id in r.byID && IndexOfName(r.byID[id], name) < |r.byID[id]|
  }

  function RemoveTunnel(r: Reg, id: string, name: string): Reg {
    if !HasTunnel(r, id, name) then r else
      var i := IndexOfName(r.byID[id], name);
      var q := Release(r, [r.byID[id][i]]);
      q.(byID := r.byID[id := Without(r.byID[id], i)])
  }

  function WithDir(t: Tunnel, dir: string): Tunnel {
    t.(dir := dir, hasDir := dir != "")
  }

  function SetDir(r: Reg, id: string, name: string, dir: string): Reg {
    if !HasTunnel(r, id, name) then r else
      var i := IndexOfName(r.byID[id], name);
      r.(byID := r.byID[id := r.byID[id][i := WithDir(r.byID[id][i], dir)]])
  }

  // ----- who holds what, and where the maps lead

  predicate HoldsHttp(r: Reg, id: string, s: string) {
    id in r.byID && s in HttpKeys(r.byID[id])
  }

  predicate HoldsPort(r: Reg, id: string, p: int) {
    id in r.byID && p in TcpPorts(r.byID[id])
  }

  predicate HoldsSocket(r: Reg, id: string, l: Listener) {
    id in r.byID && l in Sockets(r.byID[id])
  }

  predicate Routes(r: Reg, s: string, id: string) {
    s in r.bySubdomain && r.bySubdomain[s] == id
  }

  predicate RoutesPort(r: Reg, p: int, id: string) {
    p in r.byPort && r.byPort[p] == id
  }

  predicate PortOpen(r: Reg, port: int) {
    exists l :: l in r.open && l.port == port
  }

  // ----- the relations between the maps and the lists

  predicate TunnelOk(t: Tunnel) {
    if t.kind.HTTP? then t.tcpLn.None? else t.subdomain == "" && t.tcpLn.Some? && t.tcpLn.value.port == t.remotePort
  }

  predicate ListOk(ts: seq<Tunnel>) {
    forall t :: t in ts ==> TunnelOk(t)
  }

  /** Every subdomain entry leads to a live client that holds an HTTP tunnel with that subdomain. */
  ghost predicate HttpSound(r: Reg) {
    forall s, id :: Routes(r, s, id) ==> HoldsHttp(r, id, s)
  }

  /** And conversely: the entry is there exactly when some live client holds such a tunnel. */
  ghost predicate HttpExact(r: Reg) {
    forall s, id :: Routes(r, s, id) <==> HoldsHttp(r, id, s)
  }

  ghost predicate DistinctHttp(ts: seq<Tunnel>) {
    forall i, j :: 0 <= i < j < |ts| && ts[i].kind.HTTP? && ts[j].kind.HTTP? ==> ts[i].subdomain != ts[j].subdomain
  }

  ghost predicate HttpInv(r: Reg) {
    HttpExact(r) && forall id :: id in r.byID ==> DistinctHttp(r.byID[id])
  }

  ghost predicate PortsExact(r: Reg) {
    forall p, id :: RoutesPort(r, p, id) <==> HoldsPort(r, id, p)
  }

  ghost predicate DistinctSockets(ts: seq<Tunnel>) {
    forall i, j :: 0 <= i < j < |ts| && ts[i].kind.TCP? && ts[j].kind.TCP? ==> ts[i].tcpLn != ts[j].tcpLn
  }

  ghost predicate ListsOk(r: Reg) {
    forall id :: id in r.byID ==> ListOk(r.byID[id]) && DistinctSockets(r.byID[id])
  }

  /** The operating system gives a port to one listener at a time. */
  ghost predicate OnePerPort(open: set<Listener>) {
    forall k, l :: k in open && l in open && k.port == l.port ==> k == l
  }

  /** `held` maps a handler that is between Listen and registerTCP to the socket it got. */
  ghost predicate HeldBy(held: map<string, Listener>, h: string, l: Listener) {
    h in held && held[h] == l
  }

  ghost predicate HasOwner(r: Reg, held: map<string, Listener>, l: Listener) {
    (exists h :: HeldBy(held, h, l)) || (exists id :: HoldsSocket(r, id, l))
  }

  /**
    Every open socket has exactly one owner, a registered tunnel or a handler about to register it,
    and every owner's socket is open.
  */
  ghost predicate SocketsOwned(r: Reg, held: map<string, Listener>) {
    && OnePerPort(r.open)
    && (forall l :: l in r.open ==> HasOwner(r, held, l))
    && (forall id, l :: HoldsSocket(r, id, l) ==> l in r.open)
    && (forall h, l :: HeldBy(held, h, l) ==> l in r.open)
    && (forall i, j, l :: HoldsSocket(r, i, l) && HoldsSocket(r, j, l) ==> i == j)
    && (forall g, h, l :: HeldBy(held, g, l) && HeldBy(held, h, l) ==> g == h)
    && (forall h, id, l :: HeldBy(held, h, l) ==> !HoldsSocket(r, id, l))
  }

  ghost predicate TcpInv(r: Reg, held: map<string, Listener>) {
    ListsOk(r) && PortsExact(r) && SocketsOwned(r, held)
  }
}
