/** The server's heartbeat: one tick every 30 seconds, and the deadline after the last message. */
module Heartbeat {
  import opened Common

  /** Instants, in nanoseconds. */
  type Time = int

  const SECOND := 1_000_000_000
  const PERIOD := 30_000_000_000
  const DEADLINE := 90_000_000_000

  /** What the session's two goroutines react to, in the order in which they do. */
  datatype Event = Tick(at: Time) | Message(at: Time)

  datatype Session = Session(lastSeen: Time, closedAt: Option<Time>, sent: seq<Time>)

  function Opened(start: Time): Session {
    Session(start, None, [])
  }

  function Step(s: Session, e: Event): Session {
    if s.closedAt.Some? then s
    else
      match e
      case Message(t) => s.(lastSeen := t)
      case Tick(t) => if t - s.lastSeen > DEADLINE then s.(closedAt := Some(t)) else s.(sent := s.sent + [t])
  }

  function Run(start: Time, events: seq<Event>): Session {
    if events == [] then Opened(start)
    else Step(Run(start, events[..|events| - 1]), events[|events| - 1])
  }

  class Monitor {
    var lastSeen: Time
    var closedAt: Option<Time>
    var sent: seq<Time>

    function State(): Session
      reads this
    {
      Session(lastSeen, closedAt, sent)
    }

    constructor (start: Time)
      ensures State() == Opened(start)
    {
      lastSeen, closedAt, sent := start, None, [];
    }

    method OnTick(now: Time)
      modifies this
      ensures State() == Step(old(State()), Tick(now))
      ensures lastSeen == old(lastSeen)
      ensures old(closedAt).Some? ==> closedAt == old(closedAt) && sent == old(sent)
      ensures old(closedAt).None? && now - lastSeen > 90 * SECOND ==> closedAt == Some(now) && sent == old(sent)
      ensures old(closedAt).None? && now - lastSeen <= 90 * SECOND ==> closedAt == None && sent == old(sent) + [now]
    {
      if closedAt.Some? {
        return;
      }
      if now - lastSeen > DEADLINE {
        closedAt := Some(now);
        return;
      }
      sent := sent + [now];
    }

    /** Every message counts as a sign of life; on a closed session none is received. */
    method OnMessage(now: Time)
      modifies this
      ensures State() == Step(old(State()), Message(now))
    {
      if closedAt.None? {
        lastSeen := now;
      }
    }
  }

  // ----- runs in time

  /** The number of ticks among the events. */
  function Ticks(events: seq<Event>): (n: nat)
    ensures n <= |events|
  {
    if events == [] then 0
    else Ticks(events[..|events| - 1]) + if events[|events| - 1].Tick? then 1 else 0
  }

  /** Time never runs backwards, and the k-th tick comes k periods after the start. */
  ghost predicate Timed(start: Time, events: seq<Event>) {
    && (forall i :: 0 <= i < |events| ==> start <= events[i].at)
    && (forall i, j :: 0 <= i < j < |events| ==> events[i].at <= events[j].at)
    && (forall i :: 0 <= i < |events| && events[i].Tick? ==> events[i].at == start + PERIOD * (Ticks(events[..i]) + 1))
  }

  /** The instant of the last message before position i, or the start. */
  function LastMessage(start: Time, events: seq<Event>, i: nat): Time
    requires i <= |events|
  {
    if i == 0 then start
    else if events[i - 1].Message? then events[i - 1].at
    else LastMessage(start, events, i - 1)
  }

  /** At position i the clock ticks and the last message is more than 90 seconds old. */
  predicate Late(start: Time, events: seq<Event>, i: nat) {
    i < |events| && events[i].Tick? && events[i].at - LastMessage(start, events, i) > DEADLINE
  }

  lemma {:induction false} LastMessageBefore(start: Time, events: seq<Event>, i: nat, n: nat)
    requires i <= n <= |events|
    ensures LastMessage(start, events[..n], i) == LastMessage(start, events, i)
  {
    if i > 0 {
      LastMessageBefore(start, events, i - 1, n);
    }
  }

  /**
    A session is closed exactly when some tick was late, and then at the first such tick; until then
    the server remembers the instant of the last message.
  */
  lemma {:induction false} ClosedAtFirstLateTick(start: Time, events: seq<Event>)
    ensures var s := Run(start, events);
            match s.closedAt
            case None => s.lastSeen == LastMessage(start, events, |events|) &&
                         forall i: nat :: !Late(start, events, i)
            case Some(t) => exists i: nat :: Late(start, events, i) && events[i].at == t &&
                                             forall j: nat :: j < i ==> !Late(start, events, j)
  {
    var n := |events| - 1;
    if events != [] {
      var before := events[..n];
      ClosedAtFirstLateTick(start, before);
      forall i: nat | i <= n
        ensures LastMessage(start, before, i) == LastMessage(start, events, i)
        ensures i < n ==> (Late(start, before, i) <==> Late(start, events, i))
      {
        LastMessageBefore(start, events, i, n);
      }
      var s := Run(start, before);
      if s.closedAt.Some? {
        var i: nat :| Late(start, before, i) && events[i].at == s.closedAt.value &&
                      forall j: nat :: j < i ==> !Late(start, before, j);
        assert Late(start, events, i);
      } else {
        assert forall i: nat :: i < n ==> !Late(start, before, i);
        assert Late(start, events, n) <==> Run(start, events).closedAt.Some?;
      }
    }
  }

  /** The instants of the ticks among the events, in order. */
  function TickTimes(events: seq<Event>): seq<Time> {
    if events == [] then []
    else TickTimes(events[..|events| - 1]) + if events[|events| - 1].Tick? then [events[|events| - 1].at] else []
  }

  /** The heartbeats sent are the ticks up to the close, one each and in order; the late tick sends none. */
  lemma {:induction false} HeartbeatsSent(start: Time, events: seq<Event>)
    ensures var s := Run(start, events);
            match s.closedAt
            case None => s.sent == TickTimes(events)
            case Some(t) => exists i: nat :: Late(start, events, i) && events[i].at == t && s.sent == TickTimes(events[..i]) &&
                                             forall j: nat :: j < i ==> !Late(start, events, j)
  {
    if events != [] {
      var n := |events| - 1;
      var before := events[..n];
      HeartbeatsSent(start, before);
      ClosedAtFirstLateTick(start, before);
      SameLate(start, events);
      var s := Run(start, before);
      if s.closedAt.Some? {
        var i: nat :| Late(start, before, i) && events[i].at == s.closedAt.value && s.sent == TickTimes(before[..i]) &&
                      forall j: nat :: j < i ==> !Late(start, before, j);
        assert before[..i] == events[..i];
        assert Late(start, events, i);
      } else {
        assert Late(start, events, n) <==> Run(start, events).closedAt.Some?;
        assert events[..n] == before;
      }
    }
  }

  lemma SameLate(start: Time, events: seq<Event>)
    requires events != []
    ensures var n := |events| - 1;
            && (forall i: nat :: i < n ==> (Late(start, events[..n], i) <==> Late(start, events, i)))
            && LastMessage(start, events[..n], n) == LastMessage(start, events, n)
  {
    var n := |events| - 1;
    forall i: nat | i <= n
      ensures LastMessage(start, events[..n], i) == LastMessage(start, events, i)
    {
      LastMessageBefore(start, events, i, n);
    }
  }

  // ----- the bound on a silent client

  /** No tick is left out: an event does not overtake the next tick. */
  ghost predicate Prompt(start: Time, events: seq<Event>) {
    forall i :: 0 <= i < |events| ==> events[i].at <= start + PERIOD * (Ticks(events[..i]) + 1)
  }

  /** From position p on there are only ticks. */
  ghost predicate Silent(events: seq<Event>, p: nat) {
    p <= |events| && forall i :: p <= i < |events| ==> events[i].Tick?
  }

  lemma {:induction false} TickAt(events: seq<Event>, n: nat, m: nat) returns (i: nat)
    requires n <= |events| && 1 <= m <= Ticks(events[..n])
    ensures i < n && events[i].Tick? && Ticks(events[..i]) + 1 == m
  {
    assert events[..n][..n - 1] == events[..n - 1];
    if m <= Ticks(events[..n - 1]) {
      i := TickAt(events, n - 1, m);
    } else {
      i := n - 1;
    }
  }

  lemma {:induction false} LastMessageBounds(start: Time, events: seq<Event>, j: nat)
    requires Timed(start, events) && j <= |events|
    ensures start <= LastMessage(start, events, j)
    ensures j < |events| ==> LastMessage(start, events, j) <= events[j].at
  {
    if j > 0 {
      LastMessageBounds(start, events, j - 1);
    }
  }

  /** The last message moves forward in time, and stays after a message. */
  lemma {:induction false} LastMessageMoves(start: Time, events: seq<Event>, i: nat, j: nat)
    requires Timed(start, events) && i <= j <= |events|
    ensures start <= LastMessage(start, events, i) <= LastMessage(start, events, j)
    ensures forall k :: i <= k < j && events[k].Message? ==> events[k].at <= LastMessage(start, events, j)
  {
    hide Timed;
    LastMessageBounds(start, events, i);
    if i < j {
      LastMessageMoves(start, events, i, j - 1);
      LastMessageBounds(start, events, j - 1);
    }
  }

  lemma {:induction false} SilentKeeps(start: Time, events: seq<Event>, p: nat, i: nat)
    requires Silent(events, p) && p <= i <= |events|
    ensures LastMessage(start, events, i) == LastMessage(start, events, p)
  {
    if i > p {
      SilentKeeps(start, events, p, i - 1);
    }
  }

  /**
    A client whose last message came at T is cut off at the first tick after T + 90 s, which comes no
    later than T + 120 s, in every run that goes on for longer.
  */
  lemma SilentClientIsCutOff(start: Time, events: seq<Event>, p: nat, q: nat) returns (t: Time)
    requires Timed(start, events) && Prompt(start, events) && Silent(events, p)
    requires Run(start, events[..p]).closedAt == None
    requires q < |events| && events[q].at > LastMessage(start, events, p) + DEADLINE + PERIOD
    ensures Run(start, events).closedAt == Some(t) && (t - start) % (30 * SECOND) == 0
    ensures LastMessage(start, events, p) + 90 * SECOND < t <= LastMessage(start, events, p) + 120 * SECOND
  {
    var i := OverdueTick(start, events, p, q);
    NeverLate(start, events[..p]);
    hide Timed, Prompt, Silent, LastMessage, Run, Late;
    t := FirstLateAfter(start, events, p, i);
  }

  lemma FirstLateAfter(start: Time, events: seq<Event>, p: nat, i: nat) returns (t: Time)
    requires Timed(start, events) && Silent(events, p) && i < |events| && Late(start, events, i)
    requires forall k: nat :: !Late(start, events[..p], k)
    ensures Run(start, events).closedAt == Some(t) && (t - start) % PERIOD == 0
    ensures LastMessage(start, events, p) + DEADLINE < t <= events[i].at
  {
    var j := FirstLate(start, events, i);
    LateAfter(start, events, p, j);
    t := events[j].at;
  }

  lemma NeverLate(start: Time, events: seq<Event>)
    requires Run(start, events).closedAt == None
    ensures forall i: nat :: !Late(start, events, i)
  {
    ClosedAtFirstLateTick(start, events);
  }

  lemma FirstLate(start: Time, events: seq<Event>, i: nat) returns (j: nat)
    requires Timed(start, events) && Late(start, events, i)
    ensures j <= i < |events| && events[j].at <= events[i].at && Late(start, events, j) && Run(start, events).closedAt == Some(events[j].at)
  {
    ClosedAtFirstLateTick(start, events);
    hide Run;
    j :| Late(start, events, j) && Run(start, events).closedAt == Some(events[j].at) &&
         forall k: nat :: k < j ==> !Late(start, events, k);
  }

  /** The number of the first tick after the deadline of a message that came at `last`. */
  function FirstTickAfter(start: Time, last: Time): (m: nat)
    requires start <= last
    ensures 1 <= m && last + DEADLINE < start + PERIOD * m <= last + DEADLINE + PERIOD
  {
    (last + DEADLINE - start) / PERIOD + 1
  }

  lemma TickTime(start: Time, events: seq<Event>, i: nat)
    requires Timed(start, events) && i < |events| && events[i].Tick?
    ensures events[i].at == start + PERIOD * (Ticks(events[..i]) + 1)
  {
  }

  lemma OverdueTick(start: Time, events: seq<Event>, p: nat, q: nat) returns (i: nat)
    requires Timed(start, events) && Prompt(start, events) && Silent(events, p)
    requires q < |events| && events[q].at > LastMessage(start, events, p) + DEADLINE + PERIOD
    ensures i < |events| && Late(start, events, i) && events[i].at <= LastMessage(start, events, p) + DEADLINE + PERIOD
  {
    hide Timed, LastMessage, Ticks;
    var last := LastMessage(start, events, p);
    LastMessageMoves(start, events, 0, p);
    var m := FirstTickAfter(start, last);
    assert events[q].at <= start + PERIOD * (Ticks(events[..q]) + 1);
    hide FirstTickAfter, Prompt, Silent;
    i := TickAt(events, q, m);
    TickTime(start, events, i);
    if i > p {
      SilentKeeps(start, events, p, i);
    } else {
      LastMessageMoves(start, events, i, p);
    }
  }

  lemma LateAfter(start: Time, events: seq<Event>, p: nat, j: nat)
    requires Timed(start, events) && Silent(events, p) && Late(start, events, j)
    requires forall i: nat :: !Late(start, events[..p], i)
    ensures p <= j < |events| && events[j].at > LastMessage(start, events, p) + DEADLINE && (events[j].at - start) % PERIOD == 0
  {
    hide Timed, LastMessage, Ticks;
    forall k: nat | k < p
      ensures Late(start, events[..p], k) <==> Late(start, events, k)
    {
      LastMessageBefore(start, events, k, p);
    }
    assert p <= j;
    SilentKeeps(start, events, p, j);
    TickTime(start, events, j);
  }

  // ----- a client that echoes

  /** Every heartbeat is answered before the tick that comes 90 seconds later. */
  ghost predicate Echoed(events: seq<Event>) {
    forall i, j :: 0 <= i < j < |events| && events[i].Tick? && events[j].Tick? && events[j].at >= events[i].at + DEADLINE
      ==> AnsweredBetween(events, i, j)
  }

  ghost predicate AnsweredBetween(events: seq<Event>, i: nat, j: nat) {
    exists k :: i < k < j < |events| && events[k].Message?
  }

  /** Three ticks before the fourth or a later one, 90 seconds have just begun. */
  lemma TickBefore(start: Time, events: seq<Event>, j: nat) returns (i: nat)
    requires Timed(start, events) && j < |events| && events[j].Tick? && Ticks(events[..j]) >= 3
    ensures i < j && events[i].Tick? && events[j].at == events[i].at + DEADLINE
  {
    var m := Ticks(events[..j]) + 1;
    i := TickAt(events, j, m - 3);
    TickTime(start, events, j);
    TickTime(start, events, i);
  }

  lemma EarlyTickIsNotLate(start: Time, events: seq<Event>, j: nat)
    requires Timed(start, events) && j < |events| && events[j].Tick? && Ticks(events[..j]) < 3
    ensures !Late(start, events, j)
  {
    LastMessageMoves(start, events, 0, j);
    TickTime(start, events, j);
    hide Timed, LastMessage, Ticks;
    assert events[j].at <= start + DEADLINE;
  }

  lemma EchoedTickIsNotLate(start: Time, events: seq<Event>, j: nat)
    requires Timed(start, events) && Echoed(events)
    requires j < |events| && events[j].Tick?
    ensures !Late(start, events, j)
  {
    if Ticks(events[..j]) < 3 {
      EarlyTickIsNotLate(start, events, j);
    } else {
      var i := TickBefore(start, events, j);
      assert AnsweredBetween(events, i, j);
      hide Timed, Ticks, LastMessage, Echoed;
      var k :| i < k < j && events[k].Message?;
      LastMessageMoves(start, events, i, j);
    }
  }

  /** A client that echoes in time is never cut off, over any length of run. */
  lemma EchoKeepsSessionOpen(start: Time, events: seq<Event>)
    requires Timed(start, events) && Echoed(events)
    ensures Run(start, events).closedAt == None
  {
    forall j: nat
      ensures !Late(start, events, j)
    {
      if j < |events| && events[j].Tick? {
        EchoedTickIsNotLate(start, events, j);
      }
    }
    ClosedAtFirstLateTick(start, events);
  }

  /** Heartbeat i is answered less than 90 seconds after it was sent, unless the run ends before that. */
  ghost predicate AnsweredSoon(events: seq<Event>, i: nat)
    requires i < |events|
  {
    || (exists k :: i < k < |events| && events[k].Message? && events[k].at < events[i].at + DEADLINE)
    || (forall k :: i < k < |events| ==> events[k].at < events[i].at + DEADLINE)
  }

  /** In terms of the clock alone: echoing in less than 90 seconds is enough. */
  lemma SoonIsEchoed(start: Time, events: seq<Event>)
    requires Timed(start, events)
    requires forall i :: 0 <= i < |events| && events[i].Tick? ==> AnsweredSoon(events, i)
    ensures Echoed(events) && Run(start, events).closedAt == None
  {
    forall i, j | 0 <= i < j < |events| && events[i].Tick? && events[j].Tick? && events[j].at >= events[i].at + DEADLINE
      ensures AnsweredBetween(events, i, j)
    {
      assert AnsweredSoon(events, i);
      var k :| i < k < |events| && events[k].Message? && events[k].at < events[i].at + DEADLINE;
      assert k < j;
    }
    EchoKeepsSessionOpen(start, events);
  }

  const BORDERLINE := [
    Tick(30 * SECOND), Message(30 * SECOND), Tick(60 * SECOND), Tick(90 * SECOND), Tick(120 * SECOND),
    Tick(150 * SECOND), Message(150 * SECOND)
  ]

  lemma RunNext(start: Time, events: seq<Event>, n: nat)
    requires n < |events|
    ensures Run(start, events[..n + 1]) == Step(Run(start, events[..n]), events[n])
  {
    assert events[..n + 1][..n] == events[..n];
  }

  lemma RunNone(start: Time, events: seq<Event>)
    ensures Run(start, events[..0]) == Opened(start)
  {
  }

  lemma BorderlineRun()
    ensures Run(0, BORDERLINE).closedAt == Some(150 * SECOND)
  {
    hide Run;
    var b := BORDERLINE;
    RunNone(0, b);
    RunNext(0, b, 0);
    RunNext(0, b, 1);
    RunNext(0, b, 2);
    RunNext(0, b, 3);
    RunNext(0, b, 4);
    RunNext(0, b, 5);
    RunNext(0, b, 6);
    assert b[..7] == b;
  }

  lemma TicksAppend(events: seq<Event>, n: nat)
    requires n < |events|
    ensures Ticks(events[..n + 1]) == Ticks(events[..n]) + if events[n].Tick? then 1 else 0
  {
    assert events[..n + 1][..n] == events[..n];
  }

  lemma BorderlineTimed()
    ensures Timed(0, BORDERLINE)
  {
    var b := BORDERLINE;
    TicksAppend(b, 0);
    TicksAppend(b, 1);
    TicksAppend(b, 2);
    TicksAppend(b, 3);
    TicksAppend(b, 4);
  }

  /** Heartbeat i is answered within 90 seconds, up to the last instant, unless the run ends before that. */
  ghost predicate AnsweredJust(events: seq<Event>, i: nat)
    requires i < |events|
  {
    || (exists k :: i < k < |events| && events[k].Message? && events[k].at <= events[i].at + DEADLINE)
    || (forall k :: i < k < |events| ==> events[k].at < events[i].at + DEADLINE)
  }

  /** Echoing after exactly 90 seconds is not enough: the tick may come first, and silence lasted 120 seconds. */
  lemma EchoAtTheDeadlineIsTooLate()
    ensures Timed(0, BORDERLINE) && Run(0, BORDERLINE).closedAt == Some(150 * SECOND)
    ensures forall i :: 0 <= i < |BORDERLINE| && BORDERLINE[i].Tick? ==> AnsweredJust(BORDERLINE, i)
  {
    BorderlineTimed();
    BorderlineRun();
    assert BORDERLINE[1].Message? && BORDERLINE[6].Message?;
  }
}
