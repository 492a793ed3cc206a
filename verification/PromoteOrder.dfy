/**
  Orderly schedules of promotions: four premises under which no step loses a directory and a name is
  never admitted twice.
*/
module PromoteOrder {
  import opened Promote
  import opened PromoteOwners

  // ----- what uploads and stops are doing

  /** Between the checks and the pending store. */
  predicate InWindow(pc: PC) {
    pc.MakeDir? || pc.Extract? || pc.StorePending?
  }

  /** The pending entry is this upload's, and not yet dropped. */
  predicate Building(pc: PC) {
    pc.Snapshot? || pc.Build? || pc.RunContainer? || pc.DetectPort? || pc.StoreDeployed? || pc.DeletePending? || pc.DropPending?
  }

  predicate Running(s: Sys, u: UploadId, name: string) {
    u in s.uploads && s.uploads[u].name == name && (InWindow(s.uploads[u].pc) || Building(s.uploads[u].pc))
  }

  predicate Checking(s: Sys, u: UploadId, name: string) {
    u in s.uploads && s.uploads[u] == Upload(name, CheckPending)
  }

  predicate Stopping(s: Sys, k: nat, name: string) {
    k in s.stops && s.stops[k].name == name && !s.stops[k].pc.Stopped?
  }

  // ----- the premise on schedules

  /** When upload u looks for a pending build, no other upload of the name is between its checks and its store. */
  ghost predicate ChecksAlone(s: Sys, u: UploadId) {
    u in s.uploads && s.uploads[u].pc.CheckPending? ==>
      forall v :: v in s.uploads && v != u && s.uploads[v].name == s.uploads[u].name ==> !InWindow(s.uploads[v].pc)
  }

  /** A completed upload clears its pending entry while no other upload of the name is between the two checks. */
  ghost predicate ClearsUnwatched(s: Sys, u: UploadId) {
    u in s.uploads && s.uploads[u].pc.DeletePending? ==>
      forall v :: v != u ==> !Checking(s, v, s.uploads[u].name)
  }

  /** The four premises on schedules. */
  datatype Premise = LoneChecks | UnwatchedClears | LateDismissals | LoneStops

  ghost predicate Keeps(p: Premise, s: Sys, step: Step) {
    match p
    case LoneChecks => step.Advance? ==> ChecksAlone(s, step.u)
    case UnwatchedClears => step.Advance? ==> ClearsUnwatched(s, step.u)
    case LateDismissals =>
      step.Dismiss? ==> forall u :: Running(s, u, step.name) ==> InWindow(s.uploads[u].pc)
    case LoneStops => step.BeginStop? ==> forall j :: !Stopping(s, j, step.name)
  }

  /**
    All of them: the two checks and the pending store are as one step with respect to other uploads of
    the name, a build is dismissed only when its upload no longer runs, stops of one app do not overlap.
  */
  ghost predicate Orderly(s: Sys, step: Step) {
    forall p: Premise :: Keeps(p, s, step)
  }

  // ----- their invariant

  ghost predicate NamesClaimed(s: Sys) {
    && (forall u, v, n :: Running(s, u, n) && Running(s, v, n) ==> u == v)
    && (forall u, n :: Running(s, u, n) && n in s.deployed ==> s.uploads[u].pc.DeletePending?)
    && (forall u, n :: Running(s, u, n) && Building(s.uploads[u].pc) ==> n in s.pending && s.pending[n] == u)
    && (forall u, n :: Running(s, u, n) && InWindow(s.uploads[u].pc) ==> n !in s.pending)
    && (forall u, n :: Checking(s, u, n) && n in s.deployed ==> n in s.pending)
    && (forall n :: n in s.deployed && n in s.pending ==> Running(s, s.pending[n], n))
  }

  ghost predicate StopsTrue(s: Sys) {
    && (forall j, k, n :: Stopping(s, j, n) && Stopping(s, k, n) ==> j == k)
    && (forall k, n :: Stopping(s, k, n) ==> Serves(s, n, s.stops[k].pc.dir))
    && (forall k, n :: Stopping(s, k, n) && s.stops[k].pc.DeleteApp? ==> s.stops[k].pc.dir !in s.dirs)
    && (forall n :: n in s.deployed && s.deployed[n] !in s.dirs ==> exists k :: Stopping(s, k, n))
  }

  ghost predicate Inv(s: Sys) {
    Unique(s) && NoLeak(s) && NamesClaimed(s) && StopsTrue(s)
  }

  lemma StartInv(s: Sys)
    requires Start(s)
    ensures Inv(s)
  {
    StartUnique(s);
    assert forall n :: n in s.deployed ==> Serves(s, n, s.deployed[n]);
  }

  /** What other uploads are doing stays as it was. */
  lemma OthersAsBefore(s: Sys, u: UploadId, ok: bool)
    requires u in s.uploads
    ensures var t := DoAdvance(s, u, ok);
            && (forall v, n :: v != u ==> (Running(t, v, n) <==> Running(s, v, n)))
            && (forall v, n :: v != u ==> (Checking(t, v, n) <==> Checking(s, v, n)))
  {
    hide NextPC, Effect;
  }

  lemma AdvanceNames(s: Sys, u: UploadId, ok: bool)
    requires NamesClaimed(s) && u in s.uploads && ChecksAlone(s, u) && ClearsUnwatched(s, u)
    ensures NamesClaimed(DoAdvance(s, u, ok))
  {
    var pc := s.uploads[u].pc;
    hide NamesClaimed, ChecksAlone, ClearsUnwatched;
    if pc.StorePending? {
      StorePendingNames(s, u, ok);
    } else if pc.DropPending? || pc.DeletePending? {
      ClearPendingNames(s, u, ok);
    } else if pc.StoreDeployed? {
      StoreDeployedNames(s, u, ok);
    } else {
      QuietNames(s, u, ok);
    }
  }

  lemma StoreDeployedNames(s: Sys, u: UploadId, ok: bool)
    requires NamesClaimed(s) && u in s.uploads && s.uploads[u].pc.StoreDeployed?
    ensures NamesClaimed(DoAdvance(s, u, ok))
  {
    OthersAsBefore(s, u, ok);
    assert Running(s, u, s.uploads[u].name);
  }

  lemma StorePendingNames(s: Sys, u: UploadId, ok: bool)
    requires NamesClaimed(s) && u in s.uploads && s.uploads[u].pc.StorePending?
    ensures NamesClaimed(DoAdvance(s, u, ok))
  {
    var t, name := DoAdvance(s, u, ok), s.uploads[u].name;
    OthersAsBefore(s, u, ok);
    hide DoAdvance;
    assert Running(s, u, name) && Running(t, u, name);
  }

  lemma ClearPendingNames(s: Sys, u: UploadId, ok: bool)
    requires NamesClaimed(s) && u in s.uploads && (s.uploads[u].pc.DropPending? || s.uploads[u].pc.DeletePending?)
    requires ClearsUnwatched(s, u)
    ensures NamesClaimed(DoAdvance(s, u, ok))
  {
    var t, name := DoAdvance(s, u, ok), s.uploads[u].name;
    OthersAsBefore(s, u, ok);
    assert Running(s, u, name) && !Running(t, u, name) && !Checking(t, u, name);
  }

  /** Steps that change neither map: the checks, and the foreign work. */
  lemma QuietNames(s: Sys, u: UploadId, ok: bool)
    requires NamesClaimed(s) && u in s.uploads && ChecksAlone(s, u)
    requires var t := DoAdvance(s, u, ok); t.pending == s.pending && t.deployed == s.deployed
    requires !s.uploads[u].pc.StorePending?
    ensures NamesClaimed(DoAdvance(s, u, ok))
  {
    var t, name := DoAdvance(s, u, ok), s.uploads[u].name;
    OthersAsBefore(s, u, ok);
    QuietMoves(s, u, ok);
    hide DoAdvance, InWindow, Building;
    assert forall v :: v != u && v in t.uploads ==> v in s.uploads && t.uploads[v] == s.uploads[v];
  }

  /** Such a step starts to run only when its name is free, and keeps its place in the window or the build. */
  lemma QuietMoves(s: Sys, u: UploadId, ok: bool)
    requires NamesClaimed(s) && u in s.uploads && ChecksAlone(s, u)
    requires var t := DoAdvance(s, u, ok); t.pending == s.pending && t.deployed == s.deployed
    requires !s.uploads[u].pc.StorePending?
    ensures var t, name := DoAdvance(s, u, ok), s.uploads[u].name;
            && u in t.uploads && t.uploads[u].name == name
            && (Running(t, u, name) && !Running(s, u, name) ==>
                  name !in s.pending && name !in s.deployed && InWindow(t.uploads[u].pc) &&
                  forall v :: v != u ==> !Running(s, v, name))
            && (Running(t, u, name) && Running(s, u, name) ==>
                  (Building(t.uploads[u].pc) <==> Building(s.uploads[u].pc)) &&
                  (InWindow(t.uploads[u].pc) <==> InWindow(s.uploads[u].pc)) &&
                  (name in s.deployed ==> t.uploads[u].pc.DeletePending?))
            && (Running(s, u, name) && !Running(t, u, name) && name in s.pending ==> name !in s.deployed)
            && (Checking(t, u, name) ==> name !in s.deployed)
  {
    var name, pc := s.uploads[u].name, s.uploads[u].pc;
    assert InWindow(pc) || Building(pc) ==> Running(s, u, name);
    assert pc.CheckPending? ==> Checking(s, u, name);
  }

  lemma AdvanceStops(s: Sys, u: UploadId, ok: bool)
    requires Unique(s) && NamesClaimed(s) && StopsTrue(s) && u in s.uploads
    ensures StopsTrue(DoAdvance(s, u, ok))
  {
    var t, name, pc := DoAdvance(s, u, ok), s.uploads[u].name, s.uploads[u].pc;
    AdvanceViews(s, u, ok);
    if pc.StoreDeployed? {
      PublishesFree(s, u);
    }
    assert forall k, n :: Stopping(s, k, n) ==> Loaded(s, k, s.stops[k].pc.dir);
    hide DoAdvance, NamesClaimed, Owns, Running;
    assert forall k, n :: Stopping(t, k, n) <==> Stopping(s, k, n);
    forall n | n in t.deployed && t.deployed[n] !in t.dirs
      ensures exists k :: Stopping(t, k, n)
    {
      assert Serves(t, n, t.deployed[n]);
      assert Serves(s, n, t.deployed[n]);
      assert t.deployed[n] !in s.dirs;
      var k :| Stopping(s, k, n);
      assert Stopping(t, k, n);
    }
  }

  /** An upload about to publish finds its name free. */
  lemma PublishesFree(s: Sys, u: UploadId)
    requires NamesClaimed(s) && u in s.uploads && s.uploads[u].pc.StoreDeployed?
    ensures s.uploads[u].name !in s.deployed
  {
    assert Running(s, u, s.uploads[u].name);
  }

  /** Orderly steps lose nothing. */
  lemma OrderlyKeepsAll(s: Sys, step: Step)
    requires Unique(s) && NamesClaimed(s) && StopsTrue(s)
    ensures !Loses(s, step)
  {
    match step
    case Advance(u, _) => if u in s.uploads && s.uploads[u].pc.StoreDeployed? { PublishesFree(s, u); }
    case AdvanceStop(k) =>
      if k in s.stops && s.stops[k].pc.DeleteApp? {
        assert Stopping(s, k, s.stops[k].name);
        assert Serves(s, s.stops[k].name, s.stops[k].pc.dir);
      }
    case _ =>
  }

  lemma NextInv(s: Sys, step: Step)
    requires Inv(s) && Orderly(s, step)
    ensures Inv(Next(s, step))
  {
    hide Unique, NoLeak, NamesClaimed, StopsTrue, DoAdvance, DoStop, Keeps, Loses;
    NextUnique(s, step);
    OrderlyKeepsAll(s, step);
    LeaksExactlyWhenLosing(s, step);
    match step
    case Begin(u, name) => BeginInv(s, u, name);
    case Advance(u, ok) =>
      if u in s.uploads {
        AdvanceOrderly(s, u, ok);
        AdvanceNames(s, u, ok);
        AdvanceStops(s, u, ok);
      }
    case BeginStop(k, name) => BeginStopInv(s, k, name);
    case AdvanceStop(k) => if k in s.stops { StopNames(s, k); StopStops(s, k); }
    case Dismiss(name) => DismissInv(s, name);
  }

  lemma AdvanceOrderly(s: Sys, u: UploadId, ok: bool)
    requires Orderly(s, Advance(u, ok))
    ensures ChecksAlone(s, u) && ClearsUnwatched(s, u)
  {
    assert Keeps(LoneChecks, s, Advance(u, ok)) && Keeps(UnwatchedClears, s, Advance(u, ok));
  }

  /** A new upload neither runs nor checks yet. */
  lemma BeginSame(s: Sys, u: UploadId, name: string)
    ensures var t := Next(s, Begin(u, name));
            && t.(uploads := s.uploads) == s
            && (forall v, n :: Running(t, v, n) <==> Running(s, v, n))
            && (forall v, n :: Checking(t, v, n) <==> Checking(s, v, n))
            && (forall v :: v in s.uploads ==> v in t.uploads && t.uploads[v] == s.uploads[v])
  {
  }

  lemma BeginInv(s: Sys, u: UploadId, name: string)
    requires NamesClaimed(s) && StopsTrue(s)
    ensures NamesClaimed(Next(s, Begin(u, name))) && StopsTrue(Next(s, Begin(u, name)))
  {
    var t := Next(s, Begin(u, name));
    BeginSame(s, u, name);
    hide Next, InWindow, Building;
    assert forall v, n :: Running(s, v, n) ==> v in s.uploads;
    assert forall k, n :: Stopping(t, k, n) <==> Stopping(s, k, n);
    assert forall n, d :: Serves(t, n, d) <==> Serves(s, n, d);
  }

  lemma BeginStopInv(s: Sys, k: nat, name: string)
    requires NamesClaimed(s) && StopsTrue(s) && Orderly(s, BeginStop(k, name))
    ensures NamesClaimed(Next(s, BeginStop(k, name))) && StopsTrue(Next(s, BeginStop(k, name)))
  {
    var t := Next(s, BeginStop(k, name));
    assert Keeps(LoneStops, s, BeginStop(k, name));
    SameNames(s, t);
    assert forall n, d :: Serves(t, n, d) <==> Serves(s, n, d);
    assert forall j, n :: Stopping(t, j, n) <==> Stopping(s, j, n) || (t != s && j == k && n == name);
  }

  lemma SameNames(s: Sys, t: Sys)
    requires t.uploads == s.uploads
    ensures forall v, n :: Running(t, v, n) <==> Running(s, v, n)
    ensures forall v, n :: Checking(t, v, n) <==> Checking(s, v, n)
  {
  }

  lemma StopsAfter(s: Sys, k: nat)
    requires k in s.stops && !s.stops[k].pc.Stopped?
    ensures forall j, n :: Stopping(DoStop(s, k), j, n) <==> Stopping(s, j, n) && !(s.stops[k].pc.DeleteApp? && j == k)
  {
  }

  lemma StopNames(s: Sys, k: nat)
    requires NamesClaimed(s) && k in s.stops
    ensures NamesClaimed(DoStop(s, k))
  {
    if !s.stops[k].pc.Stopped? {
      var t := DoStop(s, k);
      StopViews(s, k);
      SameNames(s, t);
      assert forall n :: n in t.deployed ==> n in s.deployed by {
        assert forall n :: n in t.deployed ==> Serves(t, n, t.deployed[n]);
      }
      assert forall v, n :: Running(s, v, n) ==> v in s.uploads;
      hide DoStop, Owns, Stopping, Running, Checking, InWindow, Building;
    }
  }

  lemma StopStops(s: Sys, k: nat)
    requires Unique(s) && StopsTrue(s) && k in s.stops
    ensures StopsTrue(DoStop(s, k))
  {
    var t, name, pc := DoStop(s, k), s.stops[k].name, s.stops[k].pc;
    if !pc.Stopped? {
      StopViews(s, k);
      StopsAfter(s, k);
      assert Stopping(s, k, name) && Serves(s, name, pc.dir);
      hide DoStop;
      forall n | n in t.deployed && t.deployed[n] !in t.dirs
        ensures exists j :: Stopping(t, j, n)
      {
        assert Serves(t, n, t.deployed[n]);
        if n == name {
          assert Stopping(t, k, n);
        } else {
          assert Serves(s, n, t.deployed[n]);
          DistinctApps(s, name, n, pc.dir);
          assert s.deployed[n] !in s.dirs;
          var j :| Stopping(s, j, n);
          assert Stopping(t, j, n);
        }
      }
    }
  }

  lemma DistinctApps(s: Sys, m: string, n: string, d: DirId)
    requires Unique(s) && Serves(s, m, d) && n in s.deployed && n != m
    ensures s.deployed[n] != d
  {
    assert Serves(s, n, s.deployed[n]);
  }

  lemma DismissInv(s: Sys, name: string)
    requires NamesClaimed(s) && StopsTrue(s) && Orderly(s, Dismiss(name))
    ensures NamesClaimed(Next(s, Dismiss(name))) && StopsTrue(Next(s, Dismiss(name)))
  {
    var t := Next(s, Dismiss(name));
    assert Keeps(LateDismissals, s, Dismiss(name));
    SameNames(s, t);
    assert forall k, n :: Stopping(t, k, n) <==> Stopping(s, k, n);
    assert forall n, d :: Serves(t, n, d) <==> Serves(s, n, d);
  }

  // ----- runs that keep to the premise

  ghost predicate OrderlyRun(s: Sys, steps: seq<Step>)
    decreases |steps|
  {
    steps == [] || (Orderly(s, steps[0]) && OrderlyRun(Next(s, steps[0]), steps[1..]))
  }

  lemma {:induction false} RunInv(s: Sys, steps: seq<Step>)
    requires Inv(s) && OrderlyRun(s, steps)
    ensures Inv(Run(s, steps))
    decreases |steps|
  {
    if steps != [] {
      NextInv(s, steps[0]);
      RunInv(Next(s, steps[0]), steps[1..]);
    }
  }

  ghost predicate Conserved(s: Sys) {
    && (forall d :: d in s.dirs ==> (exists u :: Owns(s, u, d)) || (exists n :: Serves(s, n, d)))
    && (forall u, v, d: DirId :: Owns(s, u, d) && Owns(s, v, d) ==> u == v)
    && (forall m, n, d: DirId :: Serves(s, m, d) && Serves(s, n, d) ==> m == n)
    && (forall u, n, d: DirId :: Owns(s, u, d) ==> !Serves(s, n, d))
    && (forall u, d: DirId :: Owns(s, u, d) ==> d in s.dirs)
    && (forall n, d: DirId :: Serves(s, n, d) && d !in s.dirs ==> exists k :: Stopping(s, k, n))
  }

  /**
    Over any orderly run, whatever fails: a directory on disk belongs to one upload in flight or to one
    deployed app, never to two; an upload's directory is on disk, and an app's is unless a stop has just
    removed it.
  */
  lemma DirectoriesConserved(start: Sys, steps: seq<Step>)
    requires Start(start) && OrderlyRun(start, steps)
    ensures Conserved(Run(start, steps))
  {
    StartInv(start);
    RunInv(start, steps);
    var s := Run(start, steps);
    forall d | d in s.dirs
      ensures (exists u :: Owns(s, u, d)) || (exists n :: Serves(s, n, d))
    {
      assert !Leaked(s, d);
    }
    forall n, d: DirId | Serves(s, n, d) && d !in s.dirs
      ensures exists k :: Stopping(s, k, n)
    {
      assert n in s.deployed && s.deployed[n] !in s.dirs;
    }
  }

  /** Every upload has returned and every stop is over. */
  ghost predicate Quiet(s: Sys) {
    && (forall u :: u in s.uploads ==> s.uploads[u].pc.Returned?)
    && (forall k :: k in s.stops ==> s.stops[k].pc.Stopped?)
  }

  /** Then the disk holds the deployed apps' directories and no others. */
  lemma NothingLeftBehind(start: Sys, steps: seq<Step>)
    requires Start(start) && OrderlyRun(start, steps) && Quiet(Run(start, steps))
    ensures forall d :: d in Run(start, steps).dirs <==> exists n :: Serves(Run(start, steps), n, d)
  {
    DirectoriesConserved(start, steps);
    var s := Run(start, steps);
    assert forall u, d: DirId :: !Owns(s, u, d);
    assert forall k, n :: !Stopping(s, k, n);
  }

  /**
    A name has at most one upload between its checks and the end of its build, none while its app is
    deployed, except for the one that has just published it and still has to clear its pending entry.
  */
  lemma NamesExclusive(start: Sys, steps: seq<Step>)
    requires Start(start) && OrderlyRun(start, steps)
    ensures var s := Run(start, steps);
            && (forall u, v, n :: Running(s, u, n) && Running(s, v, n) ==> u == v)
            && (forall u, n :: Running(s, u, n) && n in s.deployed ==> s.uploads[u].pc.DeletePending?)
  {
    StartInv(start);
    RunInv(start, steps);
  }

  /** So no step admits a second upload of a name that is running or deployed. */
  lemma NoSecondAdmission(start: Sys, steps: seq<Step>, u: UploadId, ok: bool)
    requires Start(start) && OrderlyRun(start, steps + [Advance(u, ok)])
    requires u in Run(start, steps).uploads && Run(start, steps).uploads[u].pc.CheckPending?
    requires u in Run(start, steps + [Advance(u, ok)]).uploads && Run(start, steps + [Advance(u, ok)]).uploads[u].pc.MakeDir?
    ensures var s := Run(start, steps);
            s.uploads[u].name !in s.deployed && forall v :: !Running(s, v, s.uploads[u].name)
  {
    var s, n := Run(start, steps), Run(start, steps).uploads[u].name;
    RunAppend(start, steps, [Advance(u, ok)]);
    OrderlyAppend(start, steps, [Advance(u, ok)]);
    StartInv(start);
    RunInv(start, steps);
    assert Run(s, [Advance(u, ok)]) == DoAdvance(s, u, ok);
    assert Checking(s, u, n);
    AdvanceOrderly(s, u, ok);
    forall v
      ensures !Running(s, v, n)
    {
      assert n !in s.pending;
    }
  }

  lemma {:induction false} OrderlyAppend(s: Sys, a: seq<Step>, b: seq<Step>)
    requires OrderlyRun(s, a + b)
    ensures OrderlyRun(s, a) && OrderlyRun(Run(s, a), b)
    decreases |a|
  {
    if a == [] {
      assert a + b == b;
    } else {
      assert (a + b)[1..] == a[1..] + b;
      OrderlyAppend(Next(s, a[0]), a[1..], b);
    }
  }
}
