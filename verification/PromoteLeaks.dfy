/**
  Why orderly schedules need each of their premises: for each there is a schedule that keeps the other
  three and leaves a directory on disk that nobody owns.
*/
module PromoteLeaks {
  import opened Common
  import opened Promote
  import opened PromoteOrder

  /** The step keeps every premise but p. */
  ghost predicate OrderlyBut(p: Premise, s: Sys, step: Step) {
    forall q: Premise :: q != p ==> Keeps(q, s, step)
  }

  ghost predicate OrderlyRunBut(p: Premise, s: Sys, steps: seq<Step>)
    decreases |steps|
  {
    steps == [] || (OrderlyBut(p, s, steps[0]) && OrderlyRunBut(p, Next(s, steps[0]), steps[1..]))
  }

  /** A schedule without premise p alone leaks. */
  ghost predicate LeaksWithout(p: Premise) {
    exists steps, d :: OrderlyRunBut(p, NOTHING, steps) && Leaked(Run(NOTHING, steps), d)
  }

  const NOTHING := Sys(map[], map[], {}, 0, map[], map[])

  /** What such schedules reach from a server without apps. */
  ghost predicate Reachable(p: Premise, s: Sys) {
    exists steps :: OrderlyRunBut(p, NOTHING, steps) && s == Run(NOTHING, steps)
  }

  lemma ReachStart(p: Premise)
    ensures Reachable(p, NOTHING)
  {
    assert OrderlyRunBut(p, NOTHING, []) && NOTHING == Run(NOTHING, []);
  }

  lemma {:induction false} OrderlyThen(p: Premise, s: Sys, steps: seq<Step>, step: Step)
    requires OrderlyRunBut(p, s, steps) && OrderlyBut(p, Run(s, steps), step)
    ensures OrderlyRunBut(p, s, steps + [step])
    decreases |steps|
  {
    var all := steps + [step];
    if steps == [] {
      assert all == [step] && all[1..] == [];
    } else {
      assert all[0] == steps[0] && all[1..] == steps[1..] + [step];
      OrderlyThen(p, Next(s, steps[0]), steps[1..], step);
    }
  }

  lemma Reach(p: Premise, s: Sys, step: Step) returns (t: Sys)
    requires Reachable(p, s) && OrderlyBut(p, s, step)
    ensures t == Next(s, step) && Reachable(p, t)
  {
    var steps :| OrderlyRunBut(p, NOTHING, steps) && s == Run(NOTHING, steps);
    OrderlyThen(p, NOTHING, steps, step);
    RunAppend(NOTHING, steps, [step]);
    t := Next(s, step);
    assert [step][1..] == [];
    assert Run(s, [step]) == t;
  }

  /** Steps of an upload that neither look for a pending build nor clear one keep every premise. */
  lemma FreeAdvance(p: Premise, s: Sys, u: UploadId, ok: bool)
    requires u in s.uploads && !s.uploads[u].pc.CheckPending? && !s.uploads[u].pc.DeletePending?
    ensures OrderlyBut(p, s, Advance(u, ok))
  {
  }

  /** What an upload does next does not depend on its own record. */
  lemma AdvanceWith(b: Sys, u: UploadId, name: string, pc: PC)
    ensures Next(With(b, u, name, pc), Advance(u, true)) ==
            With(Effect(b, u, name, pc, true), u, name, NextPC(b, name, pc, true))
  {
    var next := NextPC(b, name, pc, true);
    assert b.uploads[u := Upload(name, pc)][u := Upload(name, next)] == b.uploads[u := Upload(name, next)];
  }

  /** Upload u's next step, with everything succeeding, from a state that differs from b in u's record only. */
  lemma ReachAdvance(p: Premise, b: Sys, s: Sys, u: UploadId, name: string, pc: PC) returns (t: Sys)
    requires Reachable(p, s) && s == With(b, u, name, pc)
    requires pc.CheckPending? || pc.DeletePending? ==> OrderlyBut(p, s, Advance(u, true))
    ensures t == With(Effect(b, u, name, pc, true), u, name, NextPC(b, name, pc, true)) && Reachable(p, t)
  {
    hide Reachable, OrderlyBut, Next, Effect, NextPC;
    if !pc.CheckPending? && !pc.DeletePending? {
      FreeAdvance(p, s, u, true);
    }
    t := Reach(p, s, Advance(u, true));
    AdvanceWith(b, u, name, pc);
  }

  lemma BeginWith(p: Premise, s: Sys, u: UploadId, name: string)
    requires u !in s.uploads
    ensures OrderlyBut(p, s, Begin(u, name)) && Next(s, Begin(u, name)) == With(s, u, name, CheckDeployed)
  {
  }

  /** No other upload of the name is between its checks and its store. */
  ghost predicate NoneInWindow(s: Sys, name: string) {
    forall v :: v in s.uploads && s.uploads[v].name == name ==> !InWindow(s.uploads[v].pc)
  }

  lemma CheckAlone(p: Premise, s: Sys, u: UploadId, name: string)
    requires p.LoneChecks? || NoneInWindow(s, name)
    ensures OrderlyBut(p, With(s, u, name, CheckPending), Advance(u, true))
  {
  }

  /** A new upload of a free name, up to the making of its directory. */
  lemma ReachAdmitted(p: Premise, s: Sys, u: UploadId, name: string) returns (t: Sys)
    requires Reachable(p, s) && u !in s.uploads && name !in s.deployed && name !in s.pending
    requires p.LoneChecks? || NoneInWindow(s, name)
    ensures t == With(s, u, name, MakeDir) && Reachable(p, t)
  {
    hide Reachable, OrderlyBut, Next, With, NoneInWindow;
    BeginWith(p, s, u, name);
    t := Reach(p, s, Begin(u, name));
    t := ReachAdvance(p, s, t, u, name, CheckDeployed);
    CheckAlone(p, s, u, name);
    t := ReachAdvance(p, s, t, u, name, CheckPending);
  }

  /** From there, with everything succeeding, up to the pending store. */
  lemma ReachPending(p: Premise, b: Sys, s: Sys, u: UploadId, name: string) returns (t: Sys)
    requires Reachable(p, s) && s == With(b, u, name, MakeDir)
    ensures t == With(b.(dirs := b.dirs + {b.next}, next := b.next + 1, pending := b.pending[name := u]), u, name,
                      Snapshot(b.next)) && Reachable(p, t)
  {
    hide Reachable, With;
    var d := b.next;
    var c := b.(dirs := b.dirs + {d}, next := d + 1);
    t := ReachAdvance(p, b, s, u, name, MakeDir);
    t := ReachAdvance(p, c, t, u, name, Extract(d));
    t := ReachAdvance(p, c, t, u, name, StorePending(d));
  }

  /** The build, the container and its port. */
  lemma ReachDetected(p: Premise, e: Sys, s: Sys, u: UploadId, name: string, d: DirId) returns (t: Sys)
    requires Reachable(p, s) && s == With(e, u, name, Snapshot(d))
    ensures t == With(e, u, name, StoreDeployed(d)) && Reachable(p, t)
  {
    hide Reachable, With;
    t := ReachAdvance(p, e, s, u, name, Snapshot(d));
    t := ReachAdvance(p, e, t, u, name, Build(d));
    t := ReachAdvance(p, e, t, u, name, RunContainer(d));
    t := ReachAdvance(p, e, t, u, name, DetectPort(d));
  }

  /** And on up to publishing. */
  lemma ReachBuilt(p: Premise, b: Sys, s: Sys, u: UploadId, name: string) returns (t: Sys)
    requires Reachable(p, s) && s == With(b, u, name, MakeDir)
    ensures t == With(b.(dirs := b.dirs + {b.next}, next := b.next + 1, pending := b.pending[name := u]), u, name,
                      StoreDeployed(b.next)) && Reachable(p, t)
  {
    hide Reachable, With;
    var d := b.next;
    var e := b.(dirs := b.dirs + {d}, next := d + 1, pending := b.pending[name := u]);
    t := ReachPending(p, b, s, u, name);
    t := ReachDetected(p, e, t, u, name, d);
  }

  const APP := "app"

  /** One upload, about to publish. */
  const BUILT := Sys(map[], map[APP := 0], {0}, 1, map[0 := Upload(APP, StoreDeployed(0))], map[])

  lemma FirstBuilt(p: Premise) returns (t: Sys)
    ensures t == BUILT && Reachable(p, t)
  {
    hide Reachable;
    ReachStart(p);
    t := ReachAdmitted(p, NOTHING, 0, APP);
    t := ReachBuilt(p, NOTHING, t, 0, APP);
  }

  /** A directory on disk that no app has, when no upload has any. */
  lemma Orphaned(p: Premise, t: Sys, d: DirId)
    requires Reachable(p, t)
    requires d in t.dirs && (forall u :: u in t.uploads ==> DirOf(t.uploads[u].pc) == None)
    requires forall n :: n in t.deployed ==> t.deployed[n] != d
    ensures LeaksWithout(p)
  {
    var steps :| OrderlyRunBut(p, NOTHING, steps) && t == Run(NOTHING, steps);
    assert Leaked(Run(NOTHING, steps), d);
  }

  /** Two uploads about to publish one name: the first one's directory has no owner afterwards. */
  lemma SecondPublisherLeaks(p: Premise, s: Sys)
    requires Reachable(p, s) && s.deployed == map[] && 0 in s.dirs
    requires s.uploads == map[0 := Upload(APP, StoreDeployed(0)), 1 := Upload(APP, StoreDeployed(1))]
    ensures LeaksWithout(p)
  {
    hide Reachable, LeaksWithout, OrderlyBut;
    FreeAdvance(p, s, 0, true);
    var t := Reach(p, s, Advance(0, true));
    FreeAdvance(p, t, 1, true);
    t := Reach(p, t, Advance(1, true));
    assert t.deployed == map[APP := 1] && t.dirs == s.dirs;
    assert t.uploads == map[0 := Upload(APP, DeletePending), 1 := Upload(APP, DeletePending)];
    Orphaned(p, t, 0);
  }

  /** Both uploads look before either stores its pending entry. */
  lemma CheckRaceLeaks()
    ensures LeaksWithout(LoneChecks)
  {
    hide Reachable, LeaksWithout;
    ReachStart(LoneChecks);
    var t := ReachAdmitted(LoneChecks, NOTHING, 0, APP);
    t := ReachAdmitted(LoneChecks, t, 1, APP);
    var b := With(NOTHING, 1, APP, MakeDir);
    assert t.uploads == With(b, 0, APP, MakeDir).uploads;
    t := ReachBuilt(LoneChecks, b, t, 0, APP);
    assert t.uploads == With(BUILT, 1, APP, MakeDir).uploads;
    t := ReachBuilt(LoneChecks, BUILT, t, 1, APP);
    SecondPublisherLeaks(LoneChecks, t);
  }

  /** The entry that guards a running build is dismissed. */
  lemma EarlyDismissalLeaks()
    ensures LeaksWithout(LateDismissals)
  {
    hide Reachable, LeaksWithout;
    var p := LateDismissals;
    var t := FirstBuilt(p);
    t := Reach(p, t, Dismiss(APP));
    var b := BUILT.(pending := map[]);
    assert t == b;
    t := ReachAdmitted(p, b, 1, APP);
    t := ReachBuilt(p, b, t, 1, APP);
    SecondPublisherLeaks(p, t);
  }

  /** One published app, its upload returned. */
  lemma FirstPublished(p: Premise, s: Sys) returns (t: Sys)
    requires Reachable(p, s) && s.deployed == map[] && s.pending == map[APP := 0]
    requires 0 in s.uploads && s.uploads[0] == Upload(APP, StoreDeployed(0))
    requires p.UnwatchedClears? || forall v :: !Checking(s, v, APP)
    ensures t == s.(deployed := map[APP := 0], pending := map[], uploads := s.uploads[0 := Upload(APP, Returned)])
    ensures Reachable(p, t)
  {
    hide Reachable;
    FreeAdvance(p, s, 0, true);
    t := Reach(p, s, Advance(0, true));
    assert OrderlyBut(p, t, Advance(0, true)) by {
      assert forall v :: v != 0 ==> (Checking(t, v, APP) <==> Checking(s, v, APP));
    }
    t := Reach(p, t, Advance(0, true));
    assert t.uploads == s.uploads[0 := Upload(APP, Returned)];
    assert t.pending == map[];
  }

  /** Upload 1 is past its first check when upload 0 completes. */
  lemma CompletedBetweenChecks() returns (t: Sys)
    ensures t == Sys(map[APP := 0], map[], {0}, 1, map[0 := Upload(APP, Returned), 1 := Upload(APP, CheckPending)], map[])
    ensures Reachable(UnwatchedClears, t)
  {
    hide Reachable;
    var p := UnwatchedClears;
    var s := FirstBuilt(p);
    BeginWith(p, s, 1, APP);
    t := Reach(p, s, Begin(1, APP));
    t := ReachAdvance(p, s, t, 1, APP, CheckDeployed);
    t := FirstPublished(p, t);
    assert t.uploads == map[0 := Upload(APP, Returned), 1 := Upload(APP, CheckPending)];
  }

  /** A second app published over the first one. */
  lemma PublishedOver(p: Premise, b: Sys, s: Sys) returns (t: Sys)
    requires Reachable(p, s) && s == With(b, 1, APP, MakeDir) && b.next == 1
    requires b.uploads == map[0 := Upload(APP, Returned)] && (b.deployed == map[] || b.deployed == map[APP := 0])
    ensures t.deployed == map[APP := 1] && t.dirs == b.dirs + {1} && t.stops == b.stops && Reachable(p, t)
    ensures t.uploads == map[0 := Upload(APP, Returned), 1 := Upload(APP, DeletePending)]
  {
    hide Reachable;
    t := ReachBuilt(p, b, s, 1, APP);
    var c := b.(dirs := b.dirs + {1}, next := 2, pending := b.pending[APP := 1]);
    t := ReachAdvance(p, c, t, 1, APP, StoreDeployed(1));
    assert t == With(c.(deployed := b.deployed[APP := 1]), 1, APP, DeletePending);
  }

  /** An upload completes between another's two checks, which read the maps in the order it writes them. */
  lemma CompletionBetweenChecksLeaks()
    ensures LeaksWithout(UnwatchedClears)
  {
    hide Reachable, LeaksWithout;
    var p := UnwatchedClears;
    var t := CompletedBetweenChecks();
    var b := Sys(map[APP := 0], map[], {0}, 1, map[0 := Upload(APP, Returned)], map[]);
    assert t == With(b, 1, APP, CheckPending);
    CheckAlone(p, b, 1, APP);
    t := ReachAdvance(p, b, t, 1, APP, CheckPending);
    t := PublishedOver(p, b, t);
    Orphaned(p, t, 0);
  }

  /** The first of two overlapping stops is over; the second one has loaded the same app. */
  lemma FirstStopOver() returns (t: Sys)
    ensures t == Sys(map[], map[], {}, 1, map[0 := Upload(APP, Returned)],
                     map[0 := Stop(APP, Stopped), 1 := Stop(APP, RemoveAppDir(0))])
    ensures Reachable(LoneStops, t)
  {
    hide Reachable;
    var p := LoneStops;
    t := FirstBuilt(p);
    t := FirstPublished(p, t);
    t := Reach(p, t, BeginStop(0, APP));
    t := Reach(p, t, BeginStop(1, APP));
    t := Reach(p, t, AdvanceStop(0));
    t := Reach(p, t, AdvanceStop(0));
    assert t.stops == map[0 := Stop(APP, Stopped), 1 := Stop(APP, RemoveAppDir(0))];
  }

  /** A stop that has removed an app's directory deletes the name's entry, whichever app has it by now. */
  lemma SecondStop(p: Premise, s: Sys) returns (t: Sys)
    requires Reachable(p, s) && 1 in s.stops && s.stops[1] == Stop(APP, RemoveAppDir(0)) && s.deployed == map[APP := 1]
    ensures t.deployed == map[] && t.dirs == s.dirs - {0} && t.uploads == s.uploads && Reachable(p, t)
  {
    hide Reachable;
    t := Reach(p, s, AdvanceStop(1));
    t := Reach(p, t, AdvanceStop(1));
  }

  /** The second of two overlapping stops deletes the app's successor. */
  lemma OverlappingStopsLeak()
    ensures LeaksWithout(LoneStops)
  {
    hide Reachable, LeaksWithout;
    var p := LoneStops;
    var b := FirstStopOver();
    var t := ReachAdmitted(p, b, 1, APP);
    t := PublishedOver(p, b, t);
    t := SecondStop(p, t);
    Orphaned(p, t, 1);
  }

  /** Every premise is needed beside the other three. */
  lemma EveryPremiseNeeded(p: Premise)
    ensures LeaksWithout(p)
  {
    match p
    case LoneChecks => CheckRaceLeaks();
    case UnwatchedClears => CompletionBetweenChecksLeaks();
    case LateDismissals => EarlyDismissalLeaks();
    case LoneStops => OverlappingStopsLeak();
  }
}
