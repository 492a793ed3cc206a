/**
  Who owns the directories of promoted projects: one owner at most under every schedule, and exactly
  which steps leave a directory with none.
*/
module PromoteOwners {
  import opened Common
  import opened Promote

  // ----- single ownership, under every schedule

  /** A stop that is not over has loaded the app with this directory. */
  predicate Loaded(s: Sys, k: nat, d: DirId) {
    k in s.stops && !s.stops[k].pc.Stopped? && s.stops[k].pc.dir == d
  }

  /** No directory has two owners, an upload's is on disk, and the next one made is new. */
  ghost predicate Unique(s: Sys) {
    && (forall u, d: DirId :: Owns(s, u, d) ==> d in s.dirs)
    && (forall d: DirId :: d in s.dirs ==> d < s.next)
    && (forall n, d: DirId :: Serves(s, n, d) ==> d < s.next)
    && (forall k, d: DirId :: Loaded(s, k, d) ==> d < s.next)
    && (forall u, v, d: DirId :: Owns(s, u, d) && Owns(s, v, d) ==> u == v)
    && (forall n, m, d: DirId :: Serves(s, n, d) && Serves(s, m, d) ==> n == m)
    && (forall u, n, d: DirId :: Owns(s, u, d) ==> !Serves(s, n, d))
    && (forall u, k, d: DirId :: Owns(s, u, d) ==> !Loaded(s, k, d))
  }

  ghost predicate NoLeak(s: Sys) {
    forall d: DirId :: !Leaked(s, d)
  }

  /** What a step of an upload does to owners: it hands the upload's directory on, keeps it, or removes it. */
  lemma AdvanceViews(s: Sys, u: UploadId, ok: bool)
    requires u in s.uploads
    ensures var t, name, pc := DoAdvance(s, u, ok), s.uploads[u].name, s.uploads[u].pc;
            && t.stops == s.stops
            && t.next == s.next + (if pc.MakeDir? && ok then 1 else 0)
            && t.dirs == (if pc.MakeDir? && ok then s.dirs + {s.next} else if pc.RemoveDir? then s.dirs - {pc.dir} else s.dirs)
            && (pc.StoreDeployed? || pc.RemoveDir? ==> Owns(s, u, pc.dir))
            && (forall v, d: DirId :: v != u ==> (Owns(t, v, d) <==> Owns(s, v, d)))
            && (forall d: DirId :: Owns(t, u, d) <==> OwnsNext(s, u, ok, d))
            && (forall n, d: DirId :: Serves(t, n, d) <==>
                  if pc.StoreDeployed? && n == name then d == pc.dir else Serves(s, n, d))
  {
    AdvanceOwns(s, s.uploads[u].name, s.uploads[u].pc, ok);
  }

  predicate OwnsNext(s: Sys, u: UploadId, ok: bool, d: DirId)
    requires u in s.uploads
  {
    var pc := s.uploads[u].pc;
    if pc.MakeDir? then ok && d == s.next else Owns(s, u, d) && !pc.StoreDeployed? && !pc.RemoveDir?
  }

  lemma AdvanceOwns(s: Sys, name: string, pc: PC, ok: bool)
    ensures DirOf(NextPC(s, name, pc, ok)) ==
            if pc.MakeDir? then (if ok then Some(s.next) else None)
            else if pc.StoreDeployed? || pc.RemoveDir? then None else DirOf(pc)
  {
  }

  lemma AdvanceUnique(s: Sys, u: UploadId, ok: bool)
    requires Unique(s) && u in s.uploads
    ensures Unique(DoAdvance(s, u, ok))
  {
    hide DoAdvance, Owns, Serves;
    AdvanceViews(s, u, ok);
    var t := DoAdvance(s, u, ok);
    assert forall k, d: DirId :: Loaded(t, k, d) <==> Loaded(s, k, d);
  }

  /** What a stop leaves as it was, and the app it takes away in the end. */
  lemma StopViews(s: Sys, k: nat)
    requires k in s.stops && !s.stops[k].pc.Stopped?
    ensures var t, name, pc := DoStop(s, k), s.stops[k].name, s.stops[k].pc;
            && t.uploads == s.uploads && t.pending == s.pending && t.next == s.next
            && t.dirs == (if pc.RemoveAppDir? then s.dirs - {pc.dir} else s.dirs)
            && (forall j, d: DirId :: Loaded(t, j, d) <==> Loaded(s, j, d) && !(pc.DeleteApp? && j == k))
            && (forall j :: j in s.stops && j != k ==> j in t.stops && t.stops[j] == s.stops[j])
            && (pc.RemoveAppDir? ==> k in t.stops && t.stops[k] == Stop(name, DeleteApp(pc.dir)))
            && (forall n, d :: Serves(t, n, d) <==> Serves(s, n, d) && !(pc.DeleteApp? && n == name))
  {
  }

  lemma SameUploads(s: Sys, t: Sys)
    requires t.uploads == s.uploads
    ensures forall v, d :: Owns(t, v, d) <==> Owns(s, v, d)
  {
  }

  lemma StopUnique(s: Sys, k: nat)
    requires Unique(s) && k in s.stops
    ensures Unique(DoStop(s, k))
  {
    if !s.stops[k].pc.Stopped? {
      var t := DoStop(s, k);
      hide DoStop, Owns, Serves;
      StopViews(s, k);
      SameUploads(s, t);
      assert Loaded(s, k, s.stops[k].pc.dir);
    }
  }

  /** A step that neither makes, hands on nor removes a directory. */
  predicate Passive(step: Step) {
    step.Begin? || step.BeginStop? || step.Dismiss?
  }

  lemma PassiveViews(s: Sys, step: Step)
    requires Passive(step)
    ensures var t := Next(s, step);
            && t.deployed == s.deployed && t.dirs == s.dirs && t.next == s.next
            && (forall u, d: DirId :: Owns(t, u, d) <==> Owns(s, u, d))
            && (forall n, d: DirId :: Serves(t, n, d) <==> Serves(s, n, d))
            && (forall k, d: DirId :: Loaded(t, k, d) ==> Loaded(s, k, d) || exists n :: Serves(s, n, d))
  {
    var t := Next(s, step);
    forall k, d: DirId | Loaded(t, k, d)
      ensures Loaded(s, k, d) || exists n :: Serves(s, n, d)
    {
      if !Loaded(s, k, d) {
        assert Serves(s, step.name, d);
      }
    }
  }

  /** Every step of every schedule keeps ownership single. */
  lemma NextUnique(s: Sys, step: Step)
    requires Unique(s)
    ensures Unique(Next(s, step))
  {
    match step
    case Advance(u, ok) => if u in s.uploads { AdvanceUnique(s, u, ok); }
    case AdvanceStop(k) => if k in s.stops { StopUnique(s, k); }
    case _ => PassiveUnique(s, step);
  }

  lemma PassiveUnique(s: Sys, step: Step)
    requires Unique(s) && Passive(step)
    ensures Unique(Next(s, step))
  {
    hide Next, Owns, Serves, Loaded;
    PassiveViews(s, step);
  }

  // ----- exactly which steps lose a directory

  /**
    An upload publishes over an app of its name, or a stop deletes the entry of an app, while the
    directory of that app is on disk.
  */
  predicate Loses(s: Sys, step: Step) {
    match step
    case Advance(u, _) => u in s.uploads && s.uploads[u].pc.StoreDeployed? && Stored(s, s.uploads[u].name)
    case AdvanceStop(k) => k in s.stops && s.stops[k].pc.DeleteApp? && Stored(s, s.stops[k].name)
    case _ => false
  }

  predicate Stored(s: Sys, name: string) {
    name in s.deployed && s.deployed[name] in s.dirs
  }

  /** From a state with single ownership and no leak a step leads to a leak exactly when it loses a directory. */
  lemma LeaksExactlyWhenLosing(s: Sys, step: Step)
    requires Unique(s) && NoLeak(s)
    ensures NoLeak(Next(s, step)) <==> !Loses(s, step)
  {
    match step
    case Advance(u, ok) => if u in s.uploads { AdvanceLeaks(s, u, ok); }
    case AdvanceStop(k) => if k in s.stops { StopLeaks(s, k); }
    case _ => PassiveLeaks(s, step);
  }

  lemma PassiveLeaks(s: Sys, step: Step)
    requires NoLeak(s) && Passive(step)
    ensures NoLeak(Next(s, step))
  {
    hide Next, Owns, Serves, Loaded;
    PassiveViews(s, step);
    forall d: DirId
      ensures !Leaked(Next(s, step), d)
    {
      assert !Leaked(s, d);
    }
  }

  /** The replaced app's directory has no owner any more. */
  lemma ReplacedLeaks(s: Sys, u: UploadId, ok: bool)
    requires Unique(s) && Loses(s, Advance(u, ok))
    ensures Leaked(DoAdvance(s, u, ok), s.deployed[s.uploads[u].name])
  {
    hide DoAdvance, Owns;
    AdvanceViews(s, u, ok);
    assert Serves(s, s.uploads[u].name, s.deployed[s.uploads[u].name]);
  }

  lemma AdvanceKeeps(s: Sys, u: UploadId, ok: bool, d: DirId)
    requires Unique(s) && u in s.uploads && !Loses(s, Advance(u, ok)) && !Leaked(s, d)
    ensures !Leaked(DoAdvance(s, u, ok), d)
  {
    AdvanceViews(s, u, ok);
    var t, name := DoAdvance(s, u, ok), s.uploads[u].name;
    hide DoAdvance, Unique;
    if d in t.dirs && d in s.dirs {
      if v :| Owns(s, v, d) {
        assert Owns(t, v, d) || Serves(t, name, d);
      } else {
        var n :| Serves(s, n, d);
        assert Serves(t, n, d);
      }
    } else if d in t.dirs {
      assert Owns(t, u, d);
    }
  }

  lemma AdvanceLeaks(s: Sys, u: UploadId, ok: bool)
    requires Unique(s) && NoLeak(s) && u in s.uploads
    ensures NoLeak(DoAdvance(s, u, ok)) <==> !Loses(s, Advance(u, ok))
  {
    hide DoAdvance, Unique, Leaked;
    if Loses(s, Advance(u, ok)) {
      ReplacedLeaks(s, u, ok);
    } else {
      forall d: DirId
        ensures !Leaked(DoAdvance(s, u, ok), d)
      {
        AdvanceKeeps(s, u, ok, d);
      }
    }
  }

  lemma StopLeaks(s: Sys, k: nat)
    requires Unique(s) && NoLeak(s) && k in s.stops
    ensures NoLeak(DoStop(s, k)) <==> !Loses(s, AdvanceStop(k))
  {
    var t, name, pc := DoStop(s, k), s.stops[k].name, s.stops[k].pc;
    if !pc.Stopped? {
      StopViews(s, k);
      SameUploads(s, t);
      hide DoStop, Owns;
      if Loses(s, AdvanceStop(k)) {
        assert Serves(s, name, s.deployed[name]);
        assert Leaked(t, s.deployed[name]);
      } else {
        forall d: DirId
          ensures !Leaked(t, d)
        {
          assert !Leaked(s, d);
        }
      }
    }
  }

  /** No schedule, however disorderly, gives a directory two owners. */
  lemma {:induction false} RunUnique(s: Sys, steps: seq<Step>)
    requires Unique(s)
    ensures Unique(Run(s, steps))
    decreases |steps|
  {
    if steps != [] {
      NextUnique(s, steps[0]);
      RunUnique(Next(s, steps[0]), steps[1..]);
    }
  }

  /** A whole run is free of leaks exactly when none of its steps loses a directory. */
  lemma {:induction false} RunLeaksExactly(s: Sys, steps: seq<Step>)
    requires Unique(s) && NoLeak(s)
    ensures (forall i :: 0 <= i <= |steps| ==> NoLeak(Run(s, steps[..i]))) <==>
            (forall i :: 0 <= i < |steps| ==> !Loses(Run(s, steps[..i]), steps[i]))
    decreases |steps|
  {
    var n := |steps| - 1;
    if steps == [] {
      assert Run(s, steps[..0]) == s;
    } else {
      var before := steps[..n];
      RunLeaksExactly(s, before);
      forall i | 0 <= i <= n
        ensures before[..i] == steps[..i]
      {
      }
      RunUnique(s, before);
      RunLast(s, steps);
      assert steps[..n + 1] == steps;
      if NoLeak(Run(s, before)) {
        LeaksExactlyWhenLosing(Run(s, before), steps[n]);
      }
      assert (forall i :: 0 <= i <= n ==> NoLeak(Run(s, before[..i]))) ==> NoLeak(Run(s, before[..n]));
    }
  }

  // ----- from a start

  /** A start has single owners and no leak. */
  lemma StartUnique(s: Sys)
    requires Start(s)
    ensures Unique(s) && NoLeak(s)
  {
    assert forall n, d: DirId :: Serves(s, n, d) ==> d in s.dirs;
  }

  /** So under any schedule, whatever fails, a directory never belongs to two uploads or apps. */
  lemma NeverTwoOwners(start: Sys, steps: seq<Step>)
    requires Start(start)
    ensures Unique(Run(start, steps))
  {
    StartUnique(start);
    RunUnique(start, steps);
  }

  /** And a run leaks exactly when one of its steps loses a directory. */
  lemma LeakFreeExactly(start: Sys, steps: seq<Step>)
    requires Start(start)
    ensures (forall i :: 0 <= i <= |steps| ==> NoLeak(Run(start, steps[..i]))) <==>
            (forall i :: 0 <= i < |steps| ==> !Loses(Run(start, steps[..i]), steps[i]))
  {
    StartUnique(start);
    RunLeaksExactly(start, steps);
  }
}
