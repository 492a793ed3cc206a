/** The promotion handlers as methods on the server's maps, each taken alone, and their place among the runs of Promote. */
module Deploy {
  import opened Promote

  /** How the foreign work of one upload turns out. */
  datatype Work = Work(mkdir: bool, extract: bool, ports: bool, build: bool, container: bool, listening: bool)

  /**
    What one upload, taken alone, leaves behind. A refused or failed one leaves no directory; one whose
    build or container failed leaves its pending entry, which keeps the name until it is dismissed.
  */
  function Outcome(s: Sys, u: UploadId, name: string, w: Work): Sys {
    if name in s.deployed || name in s.pending || !w.mkdir then s
    else
      var t := s.(next := s.next + 1);
      if !w.extract || !w.ports then t
      else if !w.build || !w.container || !w.listening then t.(pending := s.pending[name := u])
      else t.(deployed := s.deployed[name := s.next], dirs := s.dirs + {s.next})
  }

  /** What one stop, taken alone, leaves behind. */
  function Removed(s: Sys, name: string): Sys {
    if name in s.deployed then s.(deployed := s.deployed - {name}, dirs := s.dirs - {s.deployed[name]}) else s
  }

  class Deployments {
    var deployed: map<string, DirId>
    var pending: map<string, UploadId>
    var dirs: set<DirId>
    var next: DirId

    constructor (deployed: map<string, DirId>, dirs: set<DirId>, next: DirId)
      ensures View() == Sys(deployed, map[], dirs, next, map[], map[])
    {
      this.deployed, this.dirs, this.next, pending := deployed, dirs, next, map[];
    }

    ghost function View(): Sys
      reads this
    {
      Sys(deployed, pending, dirs, next, map[], map[])
    }

    /** A temporary directory gets a name that nothing on disk has. */
    method HandlePromoteUpload(u: UploadId, name: string, w: Work) returns (ok: bool)
      requires next !in dirs
      modifies this
      ensures View() == Outcome(old(View()), u, name, w)
      ensures ok <==> name !in old(deployed) && name !in old(pending) &&
                      w.mkdir && w.extract && w.ports && w.build && w.container && w.listening
      ensures deployed == if ok then old(deployed)[name := old(next)] else old(deployed)
      ensures dirs == if ok then old(dirs) + {old(next)} else old(dirs)
      ensures pending == if !ok && name !in old(deployed) && name !in old(pending) && w.mkdir && w.extract && w.ports
                         then old(pending)[name := u] else old(pending)
    {
      if name in deployed {
        return false;
      }
      if name in pending {
        return false;
      }
      if !w.mkdir {
        return false;
      }
      var dir := next;
      dirs, next := dirs + {dir}, next + 1;
      if !w.extract {
        RemoveAll(dir);
        return false;
      }
      pending := pending[name := u];
      if !w.ports {
        pending := pending - {name};
        RemoveAll(dir);
        return false;
      }
      if !w.build {
        RemoveAll(dir);
        return false;
      }
      if !w.container {
        RemoveAll(dir);
        return false;
      }
      if !w.listening {
        RemoveAll(dir);
        return false;
      }
      deployed := deployed[name := dir];
      pending := pending - {name};
      return true;
    }

    method RemoveAll(dir: DirId)
      modifies `dirs
      ensures dirs == old(dirs) - {dir}
    {
      dirs := dirs - {dir};
    }

    method StopApp(name: string) returns (found: bool)
      modifies this
      ensures found == (name in old(deployed))
      ensures View() == Removed(old(View()), name)
      ensures deployed == old(deployed) - {name} && pending == old(pending) && next == old(next)
      ensures dirs == old(dirs) - (if found then {old(deployed)[name]} else {})
    {
      if name !in deployed {
        return false;
      }
      RemoveAll(deployed[name]);
      deployed := deployed - {name};
      return true;
    }
  }

  // ----- an upload taken alone is a run

  function Advances(u: UploadId, flags: seq<bool>): seq<Step> {
    if flags == [] then [] else [Advance(u, flags[0])] + Advances(u, flags[1..])
  }

  /** The steps of one upload with nothing in between; once it has returned the rest have no effect. */
  function UploadSteps(u: UploadId, name: string, w: Work): seq<Step> {
    [Begin(u, name)] +
    Advances(u, [true, true, w.mkdir, w.extract, true, w.ports, w.build, w.container, w.listening, true, true])
  }

  function Solo(s: Sys, u: UploadId, name: string, pc: PC, flags: seq<bool>): Sys
    decreases |flags|
  {
    if flags == [] then With(s, u, name, pc)
    else Solo(Effect(s, u, name, pc, flags[0]), u, name, NextPC(s, name, pc, flags[0]), flags[1..])
  }

  lemma {:induction false} SoloIsRun(s: Sys, u: UploadId, name: string, pc: PC, flags: seq<bool>)
    ensures Run(With(s, u, name, pc), Advances(u, flags)) == Solo(s, u, name, pc, flags)
    decreases |flags|
  {
    if flags != [] {
      var t := Effect(s, u, name, pc, flags[0]);
      var next := NextPC(s, name, pc, flags[0]);
      assert Advances(u, flags)[1..] == Advances(u, flags[1..]);
      assert s.uploads[u := Upload(name, pc)][u := Upload(name, next)] == s.uploads[u := Upload(name, next)];
      assert Next(With(s, u, name, pc), Advances(u, flags)[0]) == With(t, u, name, next);
      SoloIsRun(t, u, name, next, flags[1..]);
    }
  }

  lemma {:induction false} SoloReturned(s: Sys, u: UploadId, name: string, flags: seq<bool>)
    ensures Solo(s, u, name, Returned, flags) == With(s, u, name, Returned)
    decreases |flags|
  {
    if flags != [] {
      SoloReturned(s, u, name, flags[1..]);
    }
  }

  lemma SoloStep(s: Sys, u: UploadId, name: string, pc: PC, f: bool, rest: seq<bool>)
    ensures Solo(s, u, name, pc, [f] + rest) == Solo(Effect(s, u, name, pc, f), u, name, NextPC(s, name, pc, f), rest)
  {
    assert ([f] + rest)[1..] == rest;
  }

  /** From the failed work to the return: the directory goes. */
  lemma SoloRemove(s: Sys, u: UploadId, name: string, d: DirId, flags: seq<bool>)
    requires flags != []
    ensures Solo(s, u, name, RemoveDir(d), flags) == With(s.(dirs := s.dirs - {d}), u, name, Returned)
  {
    SoloReturned(s.(dirs := s.dirs - {d}), u, name, flags[1..]);
  }

  /** From the build to the return. */
  lemma SoloBuild(s: Sys, u: UploadId, name: string, d: DirId, w: Work)
    ensures Solo(s, u, name, Build(d), [w.build, w.container, w.listening, true, true]) ==
            With(if w.build && w.container && w.listening
                 then s.(deployed := s.deployed[name := d], pending := s.pending - {name})
                 else s.(dirs := s.dirs - {d}), u, name, Returned)
  {
    hide Solo;
    assert [w.build, w.container, w.listening, true, true] == [w.build] + [w.container, w.listening, true, true];
    assert [w.container, w.listening, true, true] == [w.container] + [w.listening, true, true];
    assert [w.listening, true, true] == [w.listening] + [true, true];
    assert [true, true] == [true] + [true] && [true] == [true] + [];
    SoloStep(s, u, name, Build(d), w.build, [w.container, w.listening, true, true]);
    if !w.build {
      SoloRemove(s, u, name, d, [w.container, w.listening, true, true]);
    } else {
      SoloStep(s, u, name, RunContainer(d), w.container, [w.listening, true, true]);
      if !w.container {
        SoloRemove(s, u, name, d, [w.listening, true, true]);
      } else {
        SoloStep(s, u, name, DetectPort(d), w.listening, [true, true]);
        if !w.listening {
          SoloRemove(s, u, name, d, [true, true]);
        } else {
          SoloStep(s, u, name, StoreDeployed(d), true, [true]);
          var t := s.(deployed := s.deployed[name := d]);
          SoloStep(t, u, name, DeletePending, true, []);
          SoloReturned(t.(pending := t.pending - {name}), u, name, []);
        }
      }
    }
  }

  /** From the extraction to the return. */
  lemma SoloExtract(s: Sys, u: UploadId, name: string, d: DirId, w: Work)
    requires name !in s.pending
    ensures Solo(s, u, name, Extract(d), [w.extract, true, w.ports, w.build, w.container, w.listening, true, true]) ==
            With(if !w.extract || !w.ports then s.(dirs := s.dirs - {d})
                 else if w.build && w.container && w.listening then s.(deployed := s.deployed[name := d])
                 else s.(dirs := s.dirs - {d}, pending := s.pending[name := u]), u, name, Returned)
  {
    hide Solo;
    var rest := [w.build, w.container, w.listening, true, true];
    assert [w.extract, true, w.ports, w.build, w.container, w.listening, true, true] == [w.extract] + ([true, w.ports] + rest);
    SoloStep(s, u, name, Extract(d), w.extract, [true, w.ports] + rest);
    if !w.extract {
      SoloRemove(s, u, name, d, [true, w.ports] + rest);
    } else {
      assert [true, w.ports] + rest == [true] + ([w.ports] + rest);
      SoloStep(s, u, name, StorePending(d), true, [w.ports] + rest);
      var t := s.(pending := s.pending[name := u]);
      assert t.pending - {name} == s.pending;
      SoloStep(t, u, name, Snapshot(d), w.ports, rest);
      if !w.ports {
        assert rest == [w.build] + [w.container, w.listening, true, true];
        SoloStep(t, u, name, DropPending(d), w.build, [w.container, w.listening, true, true]);
        SoloRemove(s, u, name, d, [w.container, w.listening, true, true]);
      } else {
        SoloBuild(t, u, name, d, w);
      }
    }
  }

  lemma SoloOutcome(s: Sys, u: UploadId, name: string, w: Work)
    requires s.next !in s.dirs
    ensures Solo(s, u, name, CheckDeployed,
                 [true] + ([true] + ([w.mkdir] + [w.extract, true, w.ports, w.build, w.container, w.listening, true, true])))
            == With(Outcome(s, u, name, w), u, name, Returned)
  {
    hide Solo;
    var work := [w.extract, true, w.ports, w.build, w.container, w.listening, true, true];
    SoloStep(s, u, name, CheckDeployed, true, [true] + ([w.mkdir] + work));
    if name in s.deployed {
      SoloReturned(s, u, name, [true] + ([w.mkdir] + work));
    } else {
      SoloStep(s, u, name, CheckPending, true, [w.mkdir] + work);
      if name in s.pending {
        SoloReturned(s, u, name, [w.mkdir] + work);
      } else {
        SoloStep(s, u, name, MakeDir, w.mkdir, work);
        if !w.mkdir {
          SoloReturned(s, u, name, work);
        } else {
          var t := s.(dirs := s.dirs + {s.next}, next := s.next + 1);
          assert t.dirs - {s.next} == s.dirs;
          SoloExtract(t, u, name, s.next, w);
        }
      }
    }
  }

  /** The method's outcome is what the interleaved system reaches when only this upload steps. */
  lemma AloneIsRun(s: Sys, u: UploadId, name: string, w: Work)
    requires u !in s.uploads && s.next !in s.dirs
    ensures Run(s, UploadSteps(u, name, w)) == With(Outcome(s, u, name, w), u, name, Returned)
  {
    hide Solo, Advances, Outcome;
    var work := [w.extract, true, w.ports, w.build, w.container, w.listening, true, true];
    var flags := [true, true, w.mkdir, w.extract, true, w.ports, w.build, w.container, w.listening, true, true];
    assert flags == [true] + ([true] + ([w.mkdir] + work));
    assert UploadSteps(u, name, w)[1..] == Advances(u, flags);
    assert Run(s, UploadSteps(u, name, w)) == Run(Next(s, Begin(u, name)), Advances(u, flags));
    SoloIsRun(s, u, name, CheckDeployed, flags);
    SoloOutcome(s, u, name, w);
  }

  /** So is a stop's: its steps, taken alone, do what the method does and end the stop. */
  lemma StopAloneIsRun(s: Sys, k: nat, name: string)
    requires k !in s.stops
    ensures Run(s, [BeginStop(k, name), AdvanceStop(k), AdvanceStop(k)]) ==
            Removed(s, name).(stops := if name in s.deployed then s.stops[k := Stop(name, Stopped)] else s.stops)
  {
    var steps := [BeginStop(k, name), AdvanceStop(k), AdvanceStop(k)];
    var a := Next(s, steps[0]);
    var b := Next(a, steps[1]);
    RunLast(s, steps[..1]);
    RunLast(s, steps[..2]);
    RunLast(s, steps);
    assert Run(s, steps[..0]) == s;
    assert steps[..1][..0] == steps[..0] && steps[..2][..1] == steps[..1];
    assert Run(s, steps) == Next(b, steps[2]);
    if name in s.deployed {
      var d := s.deployed[name];
      assert s.stops[k := Stop(name, RemoveAppDir(d))][k := Stop(name, DeleteApp(d))] == s.stops[k := Stop(name, DeleteApp(d))];
      assert s.stops[k := Stop(name, DeleteApp(d))][k := Stop(name, Stopped)] == s.stops[k := Stop(name, Stopped)];
    }
  }
}
