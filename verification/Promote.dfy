/**
  The promotion of projects to deployed apps. Uploads, stops and dismissals run as goroutines; a step
  is one load or store of the two shared maps, or one effect on disk. A step's flag says whether the
  foreign work before it (making the directory, extracting, the port snapshot, the build, the
  container, the app's port) succeeds. Steps come in any order.
*/
module Promote {
  import opened Common

  type DirId = nat
  type UploadId = nat

  datatype PC =
    | CheckDeployed | CheckPending         // the two existence checks
    | MakeDir
    | Extract(dir: DirId) | StorePending(dir: DirId)
    | Snapshot(dir: DirId) | Build(dir: DirId) | RunContainer(dir: DirId) | DetectPort(dir: DirId)
    | StoreDeployed(dir: DirId) | DeletePending
    | DropPending(dir: DirId) | RemoveDir(dir: DirId)     // failure paths
    | Returned

  datatype Upload = Upload(name: string, pc: PC)

  datatype StopPC = RemoveAppDir(dir: DirId) | DeleteApp(dir: DirId) | Stopped

  datatype Stop = Stop(name: string, pc: StopPC)

  /** `deployed` maps an app to its directory, `pending` a name to the upload whose build it shows. */
  datatype Sys = Sys(deployed: map<string, DirId>, pending: map<string, UploadId>, dirs: set<DirId>, next: DirId,
                     uploads: map<UploadId, Upload>, stops: map<nat, Stop>)

  datatype Step =
    | Begin(u: UploadId, name: string)
    | Advance(u: UploadId, ok: bool)
    | BeginStop(k: nat, name: string)
    | AdvanceStop(k: nat)
    | Dismiss(name: string)

  /** Where an upload goes next: on, back to the request with a refusal, or onto a failure path. */
  function NextPC(s: Sys, name: string, pc: PC, ok: bool): PC {
    match pc
    case CheckDeployed => if name in s.deployed then Returned else CheckPending
    case CheckPending => if name in s.pending then Returned else MakeDir
    case MakeDir => if ok then Extract(s.next) else Returned
    case Extract(d) => if ok then StorePending(d) else RemoveDir(d)
    case StorePending(d) => Snapshot(d)
    case Snapshot(d) => if ok then Build(d) else DropPending(d)
    case DropPending(d) => RemoveDir(d)
    case Build(d) => if ok then RunContainer(d) else RemoveDir(d)
    case RunContainer(d) => if ok then DetectPort(d) else RemoveDir(d)
    case DetectPort(d) => if ok then StoreDeployed(d) else RemoveDir(d)
    case StoreDeployed(d) => DeletePending
    case DeletePending => Returned
    case RemoveDir(d) => Returned
    case Returned => Returned
  }

  /** What a step does to the shared maps and the disk. */
  function Effect(s: Sys, u: UploadId, name: string, pc: PC, ok: bool): Sys {
    match pc
    case MakeDir => if ok then s.(dirs := s.dirs + {s.next}, next := s.next + 1) else s
    case StorePending(_) => s.(pending := s.pending[name := u])
    case DropPending(_) => s.(pending := s.pending - {name})
    case StoreDeployed(d) => s.(deployed := s.deployed[name := d])
    case DeletePending => s.(pending := s.pending - {name})
    case RemoveDir(d) => s.(dirs := s.dirs - {d})
    case _ => s
  }

  function DoAdvance(s: Sys, u: UploadId, ok: bool): Sys
    requires u in s.uploads
  {
    var Upload(name, pc) := s.uploads[u];
    Effect(s, u, name, pc, ok).(uploads := s.uploads[u := Upload(name, NextPC(s, name, pc, ok))])
  }

  function DoStop(s: Sys, k: nat): Sys
    requires k in s.stops
  {
    var name := s.stops[k].name;
    match s.stops[k].pc
    case RemoveAppDir(d) => s.(dirs := s.dirs - {d}, stops := s.stops[k := Stop(name, DeleteApp(d))])
    case DeleteApp(d) => s.(deployed := s.deployed - {name}, stops := s.stops[k := Stop(name, Stopped)])
    case Stopped => s
  }

  function Next(s: Sys, step: Step): Sys {
    match step
    case Begin(u, name) => if u in s.uploads then s else s.(uploads := s.uploads[u := Upload(name, CheckDeployed)])
    case Advance(u, ok) => if u in s.uploads then DoAdvance(s, u, ok) else s
    case BeginStop(k, name) =>
      if k in s.stops || name !in s.deployed then s
      else s.(stops := s.stops[k := Stop(name, RemoveAppDir(s.deployed[name]))])
    case AdvanceStop(k) => if k in s.stops then DoStop(s, k) else s
    case Dismiss(name) => s.(pending := s.pending - {name})
  }

  function Run(s: Sys, steps: seq<Step>): Sys
    decreases |steps|
  {
    if steps == [] then s else Run(Next(s, steps[0]), steps[1..])
  }

  function With(s: Sys, u: UploadId, name: string, pc: PC): Sys {
    s.(uploads := s.uploads[u := Upload(name, pc)])
  }

  // ----- ownership

  /** The directory an upload has of its own: from making it to handing it to the app or removing it. */
  function DirOf(pc: PC): Option<DirId> {
    if pc.Extract? || pc.StorePending? || pc.Snapshot? || pc.Build? || pc.RunContainer? || pc.DetectPort? ||
       pc.StoreDeployed? || pc.DropPending? || pc.RemoveDir? then Some(pc.dir) else None
  }

  predicate Owns(s: Sys, u: UploadId, d: DirId) {
    u in s.uploads && DirOf(s.uploads[u].pc) == Some(d)
  }

  predicate Serves(s: Sys, name: string, d: DirId) {
    name in s.deployed && s.deployed[name] == d
  }

  /** A directory on disk that no upload in flight and no deployed app has. */
  ghost predicate Leaked(s: Sys, d: DirId) {
    d in s.dirs && (forall u :: !Owns(s, u, d)) && (forall name :: !Serves(s, name, d))
  }

  /** A start with loaded apps, each with a directory of its own. */
  ghost predicate Start(s: Sys) {
    && s.pending == map[] && s.uploads == map[] && s.stops == map[]
    && (forall n, m, d :: Serves(s, n, d) && Serves(s, m, d) ==> n == m)
    && (forall d :: d in s.dirs <==> exists n :: Serves(s, n, d))
    && (forall n, d: DirId :: Serves(s, n, d) ==> d < s.next)
  }

  // ----- runs

  lemma RunLast(s: Sys, steps: seq<Step>)
    requires steps != []
    ensures Run(s, steps) == Next(Run(s, steps[..|steps| - 1]), steps[|steps| - 1])
  {
    var n := |steps| - 1;
    RunAppend(s, steps[..n], [steps[n]]);
    assert steps == steps[..n] + [steps[n]];
    assert [steps[n]][1..] == [];
  }

  lemma {:induction false} RunAppend(s: Sys, a: seq<Step>, b: seq<Step>)
    ensures Run(s, a + b) == Run(Run(s, a), b)
    decreases |a|
  {
    if a == [] {
      assert a + b == b;
    } else {
      assert (a + b)[1..] == a[1..] + b;
      RunAppend(Next(s, a[0]), a[1..], b);
    }
  }
}
