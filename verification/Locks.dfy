/**
  The locks of the registry at the granularity of single lock operations and accesses. Every routine
  is the list of lock operations and shared accesses it performs; goroutines run routines in any
  interleaving. A Go RWMutex lets a waiting writer hold back new readers, and so does the model.
*/
module Locks {
  datatype Lock = RegMu | EntryMu(e: string) | CtrlMu(e: string) | WireMu(e: string)

  datatype Mode = Shared | Exclusive

  datatype Instr =
    | Acquire(lock: Lock, mode: Mode) | Release(lock: Lock)
    | ReadMaps | WriteMaps                 // byID, bySubdomain, byPort
    | ReadList(e: string) | WriteList(e: string)   // a client's `tunnels`
    | ReadDir(e: string) | WriteDir(e: string)     // `dir` and `hasDir` of its tunnels

  // ----- what each routine of the source does

  datatype Routine =
    | AddClient | RemoveClient(e: string) | Register(e: string) | Lookup | RouteHTTP(e: string)
    | Absent | RemoveTunnelByName(e: string, found: bool) | CloseAll(es: seq<string>) | Snapshot(es: seq<string>)
    | SetTunnelDir(e: string, found: bool) | SendToClient(e: string) | Reply(e: string) | RemoveTunnel(e: string, found: bool)

  function Locked(lock: Lock, mode: Mode, body: seq<Instr>): seq<Instr> {
    [Acquire(lock, mode)] + body + [Release(lock)]
  }

  function Look(): seq<Instr> {
    Locked(RegMu, Shared, [ReadMaps])
  }

  /** sendMsg: the client's control lock, and inside it the lock of the encoder. */
  function SendMsg(e: string): seq<Instr> {
    Locked(CtrlMu(e), Exclusive, Locked(WireMu(e), Exclusive, []))
  }

  function Remove(e: string, found: bool): seq<Instr> {
    Locked(RegMu, Exclusive,
           [ReadMaps] + Locked(EntryMu(e), Exclusive, [ReadList(e)] + if found then [WriteMaps, WriteList(e)] else []))
  }

  function Visit(es: seq<string>): seq<Instr> {
    if es == [] then [] else Locked(EntryMu(es[0]), Shared, [ReadList(es[0]), ReadDir(es[0])]) + Visit(es[1..])
  }

  function ProgramOf(r: Routine): seq<Instr> {
    match r
    case AddClient => Locked(RegMu, Exclusive, [WriteMaps])
    case RemoveClient(e) =>
      Locked(RegMu, Exclusive, [ReadMaps] + Locked(EntryMu(e), Shared, [ReadList(e)]) + [WriteMaps])
    case Register(e) =>
      Locked(RegMu, Exclusive, [ReadMaps, WriteMaps] + Locked(EntryMu(e), Exclusive, [WriteList(e)]))
    case Lookup => Look()
    case RouteHTTP(e) => Look() + Locked(RegMu, Shared, [ReadList(e)])
    case Absent => Locked(RegMu, Exclusive, [ReadMaps])
    case RemoveTunnelByName(e, found) => Remove(e, found)
    case CloseAll(es) => Locked(RegMu, Exclusive, [ReadMaps] + Visit(es))
    case Snapshot(es) => Locked(RegMu, Shared, [ReadMaps] + Visit(es))
    case SetTunnelDir(e, found) =>
      Look() + Locked(EntryMu(e), Exclusive, [ReadList(e)] + if found then [WriteDir(e)] else []) +
      if found then SendMsg(e) else []
    case SendToClient(e) => Look() + SendMsg(e)
    case Reply(e) => Locked(WireMu(e), Exclusive, [])
    case RemoveTunnel(e, found) => Look() + SendMsg(e) + Remove(e, found)
  }

  // ----- the discipline

  type Holding = map<Lock, Mode>

  function Rank(l: Lock): nat {
    match l
    case RegMu => 0
    case EntryMu(_) => 1
    case CtrlMu(_) => 1
    case WireMu(_) => 2
  }

  predicate Holds(held: Holding, l: Lock, m: Mode) {
    l in held && (m.Shared? || held[l].Exclusive?)
  }

  /**
    What a routine must hold for an instruction. A lock is taken only above all the locks held, and a
    client's control lock only with nothing held.
  */
  predicate Permitted(i: Instr, held: Holding) {
    match i
    case Acquire(l, _) => (forall k :: k in held ==> Rank(k) < Rank(l)) && (l.CtrlMu? ==> held == map[])
    case Release(l) => l in held
    case ReadMaps => Holds(held, RegMu, Shared)
    case WriteMaps => Holds(held, RegMu, Exclusive)
    case ReadList(e) => Holds(held, RegMu, Shared) || Holds(held, EntryMu(e), Shared)
    case WriteList(e) => Holds(held, RegMu, Exclusive) && Holds(held, EntryMu(e), Exclusive)
    case ReadDir(e) => Holds(held, EntryMu(e), Shared)
    case WriteDir(e) => Holds(held, EntryMu(e), Exclusive)
  }

  function After(i: Instr, held: Holding): Holding {
    match i
    case Acquire(l, m) => held[l := m]
    case Release(l) => held - {l}
    case _ => held
  }

  /** The rest of a routine keeps to the discipline and ends with nothing held. */
  ghost predicate Disciplined(rest: seq<Instr>, held: Holding)
    decreases |rest|
  {
    if rest == [] then held == map[]
    else Permitted(rest[0], held) && Disciplined(rest[1..], After(rest[0], held))
  }

  /** The holdings after a stretch of a routine, if it keeps to the discipline. */
  ghost predicate Leads(rest: seq<Instr>, held: Holding, to: Holding)
    decreases |rest|
  {
    if rest == [] then held == to
    else Permitted(rest[0], held) && Leads(rest[1..], After(rest[0], held), to)
  }

  lemma {:induction false} LeadsThen(a: seq<Instr>, b: seq<Instr>, held: Holding, mid: Holding, to: Holding)
    requires Leads(a, held, mid) && Leads(b, mid, to)
    ensures Leads(a + b, held, to)
    decreases |a|
  {
    if a == [] {
      assert a + b == b;
    } else {
      assert (a + b)[1..] == a[1..] + b;
      LeadsThen(a[1..], b, After(a[0], held), mid, to);
    }
  }

  lemma LeadsLocked(l: Lock, m: Mode, body: seq<Instr>, held: Holding)
    requires l !in held && (forall k :: k in held ==> Rank(k) < Rank(l)) && (l.CtrlMu? ==> held == map[])
    requires Leads(body, held[l := m], held[l := m])
    ensures Leads(Locked(l, m, body), held, held)
  {
    assert held[l := m] - {l} == held;
    assert Leads([Release(l)], held[l := m], held) by {
      assert [Release(l)][1..] == [];
    }
    LeadsThen(body, [Release(l)], held[l := m], held[l := m], held);
    assert Locked(l, m, body)[1..] == body + [Release(l)];
  }

  lemma {:induction false} LeadsVisit(es: seq<string>, m: Mode)
    ensures Leads(Visit(es), map[RegMu := m], map[RegMu := m])
  {
    if es != [] {
      var held := map[RegMu := m];
      var body := [ReadList(es[0]), ReadDir(es[0])];
      assert body[1..] == [ReadDir(es[0])] && body[1..][1..] == [];
      LeadsLocked(EntryMu(es[0]), Shared, body, held);
      LeadsVisit(es[1..], m);
      LeadsThen(Locked(EntryMu(es[0]), Shared, body), Visit(es[1..]), held, held, held);
    }
  }

  lemma {:induction false} LeadsDisciplined(rest: seq<Instr>, held: Holding)
    requires Leads(rest, held, map[])
    ensures Disciplined(rest, held)
    decreases |rest|
  {
    if rest != [] {
      LeadsDisciplined(rest[1..], After(rest[0], held));
    }
  }

  lemma LeadsPlain(body: seq<Instr>, held: Holding)
    requires |body| <= 3 && forall i :: 0 <= i < |body| ==> !body[i].Acquire? && !body[i].Release? && Permitted(body[i], held)
    ensures Leads(body, held, held)
  {
    if body != [] {
      LeadsPlain(body[1..], held);
    }
  }

  lemma LeadsLook()
    ensures Leads(Look(), map[], map[])
  {
    LeadsPlain([ReadMaps], map[RegMu := Shared]);
    LeadsLocked(RegMu, Shared, [ReadMaps], map[]);
  }

  lemma LeadsSendMsg(e: string)
    ensures Leads(SendMsg(e), map[], map[])
  {
    var held := map[CtrlMu(e) := Exclusive];
    LeadsLocked(WireMu(e), Exclusive, [], held);
    LeadsLocked(CtrlMu(e), Exclusive, Locked(WireMu(e), Exclusive, []), map[]);
  }

  /** A routine that does something under the registry lock, then something in one entry, then something more. */
  lemma LeadsNested(m: Mode, a: seq<Instr>, e: string, n: Mode, inner: seq<Instr>, b: seq<Instr>)
    requires Leads(a, map[RegMu := m], map[RegMu := m]) && Leads(b, map[RegMu := m], map[RegMu := m])
    requires Leads(inner, map[RegMu := m, EntryMu(e) := n], map[RegMu := m, EntryMu(e) := n])
    ensures Leads(Locked(RegMu, m, a + Locked(EntryMu(e), n, inner) + b), map[], map[])
  {
    var held := map[RegMu := m];
    LeadsLocked(EntryMu(e), n, inner, held);
    LeadsThen(a, Locked(EntryMu(e), n, inner), held, held, held);
    LeadsThen(a + Locked(EntryMu(e), n, inner), b, held, held, held);
    LeadsLocked(RegMu, m, a + Locked(EntryMu(e), n, inner) + b, map[]);
  }

  lemma LeadsRemove(e: string, found: bool)
    ensures Leads(Remove(e, found), map[], map[])
  {
    var inner := [ReadList(e)] + if found then [WriteMaps, WriteList(e)] else [];
    LeadsPlain([ReadMaps], map[RegMu := Exclusive]);
    LeadsPlain(inner, map[RegMu := Exclusive, EntryMu(e) := Exclusive]);
    LeadsNested(Exclusive, [ReadMaps], e, Exclusive, inner, []);
    assert [ReadMaps] + Locked(EntryMu(e), Exclusive, inner) + [] == [ReadMaps] + Locked(EntryMu(e), Exclusive, inner);
  }

  /** Every routine of the source keeps to the discipline. */
  lemma RoutinesDisciplined(r: Routine)
    ensures Disciplined(ProgramOf(r), map[])
  {
    hide Leads;
    var none: Holding := map[];
    LeadsLook();
    match r {
      case AddClient =>
        LeadsPlain([WriteMaps], map[RegMu := Exclusive]);
        LeadsLocked(RegMu, Exclusive, [WriteMaps], none);
      case RemoveClient(e) =>
        LeadsPlain([ReadMaps], map[RegMu := Exclusive]);
        LeadsPlain([WriteMaps], map[RegMu := Exclusive]);
        LeadsPlain([ReadList(e)], map[RegMu := Exclusive, EntryMu(e) := Shared]);
        LeadsNested(Exclusive, [ReadMaps], e, Shared, [ReadList(e)], [WriteMaps]);
      case Register(e) =>
        LeadsPlain([ReadMaps, WriteMaps], map[RegMu := Exclusive]);
        LeadsPlain([], map[RegMu := Exclusive]);
        LeadsPlain([WriteList(e)], map[RegMu := Exclusive, EntryMu(e) := Exclusive]);
        LeadsNested(Exclusive, [ReadMaps, WriteMaps], e, Exclusive, [WriteList(e)], []);
        assert [ReadMaps, WriteMaps] + Locked(EntryMu(e), Exclusive, [WriteList(e)]) + []
            == [ReadMaps, WriteMaps] + Locked(EntryMu(e), Exclusive, [WriteList(e)]);
      case Lookup =>
      case RouteHTTP(e) =>
        LeadsPlain([ReadList(e)], map[RegMu := Shared]);
        LeadsLocked(RegMu, Shared, [ReadList(e)], none);
        LeadsThen(Look(), Locked(RegMu, Shared, [ReadList(e)]), none, none, none);
      case Absent =>
        LeadsPlain([ReadMaps], map[RegMu := Exclusive]);
        LeadsLocked(RegMu, Exclusive, [ReadMaps], none);
      case RemoveTunnelByName(e, found) => LeadsRemove(e, found);
      case CloseAll(es) => LeadsVisiting(es, Exclusive);
      case Snapshot(es) => LeadsVisiting(es, Shared);
      case SetTunnelDir(e, found) =>
        var body := [ReadList(e)] + if found then [WriteDir(e)] else [];
        LeadsPlain(body, map[EntryMu(e) := Exclusive]);
        LeadsLocked(EntryMu(e), Exclusive, body, none);
        LeadsSendMsg(e);
        LeadsThen(Look(), Locked(EntryMu(e), Exclusive, body), none, none, none);
        LeadsPlain([], none);
        LeadsThen(Look() + Locked(EntryMu(e), Exclusive, body), if found then SendMsg(e) else [], none, none, none);
      case SendToClient(e) =>
        LeadsSendMsg(e);
        LeadsThen(Look(), SendMsg(e), none, none, none);
      case Reply(e) =>
        LeadsPlain([], map[WireMu(e) := Exclusive]);
        LeadsLocked(WireMu(e), Exclusive, [], none);
      case RemoveTunnel(e, found) =>
        LeadsSendMsg(e);
        LeadsRemove(e, found);
        LeadsThen(Look(), SendMsg(e), none, none, none);
        LeadsThen(Look() + SendMsg(e), Remove(e, found), none, none, none);
    }
    LeadsDisciplined(ProgramOf(r), none);
  }

  lemma LeadsVisiting(es: seq<string>, m: Mode)
    ensures Leads(Locked(RegMu, m, [ReadMaps] + Visit(es)), map[], map[])
  {
    var held := map[RegMu := m];
    LeadsPlain([ReadMaps], held);
    LeadsVisit(es, m);
    LeadsThen([ReadMaps], Visit(es), held, held, held);
    LeadsLocked(RegMu, m, [ReadMaps] + Visit(es), map[]);
  }

  // ----- goroutines

  /** `waiting` marks a call of Lock that has started and is not granted yet. */
  datatype Thread = Thread(rest: seq<Instr>, held: Holding, waiting: bool)

  type State = map<nat, Thread>

  datatype Step = Spawn(t: nat, r: Routine) | Announce(t: nat) | Do(t: nat)

  predicate Wants(s: State, t: nat, l: Lock, m: Mode) {
    t in s && s[t].rest != [] && s[t].rest[0] == Acquire(l, m)
  }

  predicate HeldBy(s: State, t: nat, l: Lock, m: Mode) {
    t in s && Holds(s[t].held, l, m)
  }

  /** A writer needs the lock free of holders; a reader needs it free of writers, also of waiting ones. */
  ghost predicate CanTake(s: State, t: nat, l: Lock, m: Mode)
    requires t in s
  {
    if m.Exclusive? then s[t].waiting && forall u :: !HeldBy(s, u, l, Shared)
    else forall u :: !HeldBy(s, u, l, Exclusive) && !(Wants(s, u, l, Exclusive) && s[u].waiting)
  }

  ghost predicate Enabled(s: State, step: Step) {
    match step
    case Spawn(t, r) => t !in s
    case Announce(t) => t in s && !s[t].waiting && s[t].rest != [] && s[t].rest[0].Acquire? && s[t].rest[0].mode.Exclusive?
    case Do(t) =>
      t in s && s[t].rest != [] &&
      (s[t].rest[0].Acquire? ==> CanTake(s, t, s[t].rest[0].lock, s[t].rest[0].mode))
  }

  ghost function Next(s: State, step: Step): State {
    if !Enabled(s, step) then s else
      match step
      case Spawn(t, r) => s[t := Thread(ProgramOf(r), map[], false)]
      case Announce(t) => s[t := s[t].(waiting := true)]
      case Do(t) => s[t := Thread(s[t].rest[1..], After(s[t].rest[0], s[t].held), false)]
  }

  ghost function Run(s: State, steps: seq<Step>): State
    decreases |steps|
  {
    if steps == [] then s else Run(Next(s, steps[0]), steps[1..])
  }

  ghost predicate ThreadOk(th: Thread) {
    && Disciplined(th.rest, th.held)
    && (th.waiting ==> th.rest != [] && th.rest[0].Acquire? && th.rest[0].mode.Exclusive?)
  }

  ghost predicate Inv(s: State) {
    && (forall t :: t in s ==> ThreadOk(s[t]))
    && (forall t, u, l :: HeldBy(s, t, l, Exclusive) && HeldBy(s, u, l, Shared) ==> t == u)
  }

  lemma NextInv(s: State, step: Step)
    requires Inv(s)
    ensures Inv(Next(s, step))
  {
    if Enabled(s, step) {
      match step
      case Spawn(t, r) =>
        RoutinesDisciplined(r);
        assert forall u, l, m :: HeldBy(Next(s, step), u, l, m) ==> HeldBy(s, u, l, m);
      case Announce(t) =>
        assert ThreadOk(s[t]);
        assert forall u, l, m :: HeldBy(Next(s, step), u, l, m) ==> HeldBy(s, u, l, m);
      case Do(t) =>
        assert ThreadOk(s[t]);
        DoExclusive(s, t);
        assert ThreadOk(Next(s, step)[t]);
    }
  }

  /** Taking a lock when it can be taken keeps writers alone. */
  lemma DoExclusive(s: State, t: nat)
    requires Inv(s) && Enabled(s, Do(t))
    ensures var q := Next(s, Do(t));
            forall a, b, l :: HeldBy(q, a, l, Exclusive) && HeldBy(q, b, l, Shared) ==> a == b
  {
    var q, i := Next(s, Do(t)), s[t].rest[0];
    forall a, b, l | HeldBy(q, a, l, Exclusive) && HeldBy(q, b, l, Shared)
      ensures a == b
    {
      if i.Acquire? && i.lock == l {
        assert a != t ==> HeldBy(s, a, l, Exclusive) && HeldBy(s, a, l, Shared);
        assert b != t ==> HeldBy(s, b, l, Shared);
      } else {
        assert HeldBy(s, a, l, Exclusive) && HeldBy(s, b, l, Shared);
      }
    }
  }

  lemma {:induction false} RunInv(s: State, steps: seq<Step>)
    requires Inv(s)
    ensures Inv(Run(s, steps))
    decreases |steps|
  {
    if steps != [] {
      NextInv(s, steps[0]);
      RunInv(Next(s, steps[0]), steps[1..]);
    }
  }

  ghost predicate Reachable(s: State) {
    exists steps :: s == Run(map[], steps)
  }

  lemma ReachableInv(s: State)
    requires Reachable(s)
    ensures Inv(s)
  {
    var steps :| s == Run(map[], steps);
    RunInv(map[], steps);
  }

  // ----- no conflicting accesses

  predicate Writes(i: Instr, other: Instr) {
    match i
    case WriteMaps => other.ReadMaps? || other.WriteMaps?
    case WriteList(e) => other == ReadList(e) || other == WriteList(e)
    case WriteDir(e) => other == ReadDir(e) || other == WriteDir(e)
    case _ => false
  }

  /** No two goroutines are ever about to touch the same maps, list or directory when one of them writes. */
  lemma NoConflict(s: State, t: nat, u: nat)
    requires Reachable(s) && t in s && u in s && t != u && s[t].rest != [] && s[u].rest != []
    ensures !Writes(s[t].rest[0], s[u].rest[0])
  {
    ReachableInv(s);
    assert ThreadOk(s[t]) && ThreadOk(s[u]);
    var i, j := s[t].rest[0], s[u].rest[0];
    match i
    case WriteMaps =>
      assert HeldBy(s, t, RegMu, Exclusive);
      assert !HeldBy(s, u, RegMu, Shared);
    case WriteList(e) =>
      assert HeldBy(s, t, RegMu, Exclusive) && HeldBy(s, t, EntryMu(e), Exclusive);
      assert !HeldBy(s, u, RegMu, Shared) && !HeldBy(s, u, EntryMu(e), Shared);
    case WriteDir(e) =>
      assert HeldBy(s, t, EntryMu(e), Exclusive);
      assert !HeldBy(s, u, EntryMu(e), Shared);
    case _ =>
  }

  // ----- no deadlock

  /** t is blocked by u: u holds the lock t wants in a conflicting way, or is a writer waiting for it. */
  ghost predicate WaitsFor(s: State, t: nat, u: nat) {
    exists l, m :: Wants(s, t, l, m) && Blocks(s, u, l, m) && u != t
  }

  predicate Blocks(s: State, u: nat, l: Lock, m: Mode) {
    if m.Exclusive? then HeldBy(s, u, l, Shared)
    else HeldBy(s, u, l, Exclusive) || (Wants(s, u, l, Exclusive) && s[u].waiting)
  }

  /** How far up the lock order a goroutine waits; one that waits for nothing is above all. */
  function Height(s: State, t: nat): nat
    requires t in s
  {
    if s[t].rest == [] || !s[t].rest[0].Acquire? then 6
    else 2 * Rank(s[t].rest[0].lock) + (if s[t].rest[0].mode.Exclusive? then 1 else 0)
  }

  ghost predicate Chain(s: State, ts: seq<nat>) {
    forall i :: 0 <= i < |ts| - 1 ==> WaitsFor(s, ts[i], ts[i + 1])
  }

  lemma WaitsUpward(s: State, t: nat, u: nat)
    requires Inv(s) && WaitsFor(s, t, u)
    ensures t in s && u in s && Height(s, t) < Height(s, u) && s[u].rest != []
  {
    var l, m :| Wants(s, t, l, m) && Blocks(s, u, l, m) && u != t;
    assert ThreadOk(s[u]);
    if l in s[u].held {
      assert s[u].rest != [];
      assert s[u].rest[0].Acquire? ==> Rank(l) < Rank(s[u].rest[0].lock);
    }
  }

  lemma {:induction false} ChainUpward(s: State, ts: seq<nat>)
    requires Inv(s) && |ts| >= 2 && Chain(s, ts)
    ensures ts[0] in s && ts[|ts| - 1] in s && Height(s, ts[0]) < Height(s, ts[|ts| - 1])
  {
    assert WaitsFor(s, ts[0], ts[0 + 1]);
    WaitsUpward(s, ts[0], ts[1]);
    if |ts| > 2 {
      forall i | 0 <= i < |ts[1..]| - 1
        ensures WaitsFor(s, ts[1..][i], ts[1..][i + 1])
      {
        assert WaitsFor(s, ts[i + 1], ts[i + 2]);
      }
      ChainUpward(s, ts[1..]);
    }
  }

  /** No reachable state has a cycle of waiting goroutines. */
  lemma NoWaitCycle(s: State, ts: seq<nat>)
    requires Reachable(s) && |ts| >= 2 && Chain(s, ts)
    ensures ts[0] != ts[|ts| - 1]
  {
    ReachableInv(s);
    ChainUpward(s, ts);
  }

  /** While a goroutine is unfinished, it or one that it waits for, directly or not, can take a step. */
  lemma {:induction false} SomeoneProceeds(s: State, t: nat) returns (step: Step)
    requires Inv(s) && t in s && s[t].rest != []
    ensures !step.Spawn? && Enabled(s, step)
    decreases 6 - Height(s, t)
  {
    step := Do(t);
    var i := s[t].rest[0];
    if i.Acquire? && i.mode.Exclusive? && !s[t].waiting {
      step := Announce(t);
    } else if i.Acquire? && !CanTake(s, t, i.lock, i.mode) {
      assert ThreadOk(s[t]);
      var u := t;
      if i.mode.Exclusive? {
        u :| HeldBy(s, u, i.lock, Shared);
      } else {
        u :| HeldBy(s, u, i.lock, Exclusive) || (Wants(s, u, i.lock, Exclusive) && s[u].waiting);
      }
      assert Wants(s, t, i.lock, i.mode) && Blocks(s, u, i.lock, i.mode);
      WaitsUpward(s, t, u);
      step := SomeoneProceeds(s, u);
    }
  }

  lemma NeverStuck(s: State, t: nat) returns (step: Step)
    requires Reachable(s) && t in s && s[t].rest != []
    ensures !step.Spawn? && Enabled(s, step)
  {
    ReachableInv(s);
    step := SomeoneProceeds(s, t);
  }
}
