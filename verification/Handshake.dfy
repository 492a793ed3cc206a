/** The client's side of connecting: it sends one registration a tunnel, then reads as many messages. */
module Handshake {
  import opened Common
  import opened PublicUrl
  import opened Protocol
  import opened Sessions
  import opened SessionSafety

  /** A tunnel in the client's configuration. */
  datatype Wanted = Wanted(name: string, tag: string, local: string, subdomain: string, remotePort: int, dir: string)

  /** What the server sends: answers, and everything else that the connect loop passes over. */
  datatype Message = Answer(reply: Reply) | Other(tag: string)

  function KindOf(tag: string): TunnelType {
    if tag == "http" then Http else if tag == "tcp" then Tcp else Unknown(tag)
  }

  function Registration(t: Wanted): Request {
    Request(t.name, KindOf(t.tag), if t.subdomain == "" then t.name else t.subdomain, t.remotePort, t.local,
            t.dir != "", t.dir)
  }

  function Registrations(ts: seq<Wanted>): (qs: seq<Request>)
    ensures |qs| == |ts| && forall i :: 0 <= i < |ts| ==> qs[i] == Registration(ts[i])
  {
    seq(|ts|, i requires 0 <= i < |ts| => Registration(ts[i]))
  }

  /** A registration asks for what a tunnel is configured with, field by field. */
  predicate AsksFor(q: Request, t: Wanted) {
    && q.name == t.name && q.localAddr == t.local && q.remotePort == t.remotePort
    && q.subdomain == (if t.subdomain == "" then t.name else t.subdomain)
    && (q.hasDir <==> t.dir != "") && q.dir == t.dir
    && (t.tag == "http" <==> q.kind == Http) && (t.tag == "tcp" <==> q.kind == Tcp)
    && (q.kind.Unknown? ==> q.kind.tag == t.tag)
  }

  lemma RegistrationAsks(t: Wanted)
    ensures AsksFor(Registration(t), t)
  {
    assert "tcp"[0] != "http"[0];
  }

  /** The answers among the messages, in order. */
  function Replies(ms: seq<Message>): (rs: seq<Reply>)
    ensures |rs| <= |ms|
  {
    if ms == [] then []
    else Replies(ms[..|ms| - 1]) + if ms[|ms| - 1].Answer? then [ms[|ms| - 1].reply] else []
  }

  function Others(ms: seq<Message>): nat {
    |ms| - |Replies(ms)|
  }

  datatype Failure = SendFailed | ReceiveFailed

  /** The control channel: what was sent on it, and what it will deliver before it breaks. */
  class Channel {
    var sent: seq<Request>
    var incoming: seq<Message>
    /** The number of messages it still accepts. */
    var room: nat

    constructor (incoming: seq<Message>, room: nat)
      ensures sent == [] && this.incoming == incoming && this.room == room
    {
      this.sent, this.incoming, this.room := [], incoming, room;
    }
  }

  /** What connecting with n tunnels returns. */
  function Connected(incoming: seq<Message>, room: nat, n: nat): Result<seq<Reply>, Failure> {
    if room < n then Err(SendFailed)
    else if |incoming| < n then Err(ReceiveFailed)
    else Ok(Replies(incoming[..n]))
  }

  /** The answers that connecting has seen are those among the first messages, one message a tunnel. */
  method Connect(ch: Channel, tunnels: seq<Wanted>) returns (r: Result<seq<Reply>, Failure>)
    modifies ch
    ensures ch.sent == old(ch.sent) + Registrations(tunnels[..if |tunnels| <= old(ch.room) then |tunnels| else old(ch.room)])
    ensures old(ch.sent) <= ch.sent
    ensures |ch.sent| == |old(ch.sent)| + if |tunnels| <= old(ch.room) then |tunnels| else old(ch.room)
    ensures forall i :: |old(ch.sent)| <= i < |ch.sent| ==> AsksFor(ch.sent[i], tunnels[i - |old(ch.sent)|])
    ensures r == Err(SendFailed) <==> old(ch.room) < |tunnels|
    ensures r == Err(ReceiveFailed) <==> |tunnels| <= old(ch.room) && |old(ch.incoming)| < |tunnels|
    ensures r.Ok? ==> |tunnels| <= |old(ch.incoming)| && ch.incoming == old(ch.incoming)[|tunnels|..]
    ensures r.Ok? ==> r.value == Replies(old(ch.incoming)[..|tunnels|])
    ensures r == Connected(old(ch.incoming), old(ch.room), |tunnels|)
  {
    var i := 0;
    while i < |tunnels|
      invariant 0 <= i <= |tunnels| && i <= old(ch.room) && ch.room == old(ch.room) - i
      invariant ch.sent == old(ch.sent) + Registrations(tunnels[..i]) && ch.incoming == old(ch.incoming)
      invariant forall j :: 0 <= j < i ==> AsksFor(ch.sent[|old(ch.sent)| + j], tunnels[j])
    {
      var t := tunnels[i];
      var subdomain := t.subdomain;
      if subdomain == "" {
        subdomain := t.name;
      }
      var msg := Request(t.name, KindOf(t.tag), subdomain, t.remotePort, t.local, t.dir != "", t.dir);
      if ch.room == 0 {
        return Err(SendFailed);
      }
      assert Registrations(tunnels[..i + 1]) == Registrations(tunnels[..i]) + [msg];
      RegistrationAsks(t);
      ch.sent, ch.room := ch.sent + [msg], ch.room - 1;
      i := i + 1;
    }
    assert tunnels[..|tunnels|] == tunnels;
    var seen: seq<Reply> := [];
    var k := 0;
    while k < |tunnels|
      invariant 0 <= k <= |tunnels| && k <= |old(ch.incoming)|
      invariant ch.sent == old(ch.sent) + Registrations(tunnels)
      invariant forall j :: 0 <= j < |tunnels| ==> AsksFor(ch.sent[|old(ch.sent)| + j], tunnels[j])
      invariant ch.incoming == old(ch.incoming)[k..] && seen == Replies(old(ch.incoming)[..k])
    {
      if ch.incoming == [] {
        return Err(ReceiveFailed);
      }
      var m := ch.incoming[0];
      assert old(ch.incoming)[..k + 1][..k] == old(ch.incoming)[..k];
      if m.Answer? {
        seen := seen + [m.reply];
      }
      ch.incoming, k := ch.incoming[1..], k + 1;
    }
    return Ok(seen);
  }

  lemma {:induction false} RepliesAppend(a: seq<Message>, b: seq<Message>)
    ensures Replies(a + b) == Replies(a) + Replies(b)
  {
    if b == [] {
      assert a + b == a;
    } else {
      RepliesAppend(a, b[..|b| - 1]);
      assert (a + b)[..|a + b| - 1] == a + b[..|b| - 1];
    }
  }

  /** The i-th reply answers the i-th tunnel's registration, and there are no others. */
  ghost predicate AllAnswered(cfg: Config, tunnels: seq<Wanted>, replies: seq<Reply>) {
    && |replies| == |tunnels|
    && forall i :: 0 <= i < |tunnels| ==>
         replies[i].name == tunnels[i].name && Answers(cfg, Registration(tunnels[i]), replies[i])
  }

  /** The URL of a positive answer is that of the tunnel as it is configured. */
  ghost predicate AnswersTunnel(cfg: Config, t: Wanted, r: Reply) {
    && r.name == t.name
    && (t.tag == "http" && r.Registered? ==>
          r.url == BuildPublicHTTPURL(cfg, if t.subdomain == "" && t.name != "" then t.name else t.subdomain))
    && (t.tag == "tcp" && r.Registered? ==>
          exists port :: (t.remotePort != 0 ==> port == t.remotePort) &&
                         (cfg.allowedPorts == [] || port in cfg.allowedPorts) && r.url == BuildTcpURL(cfg, port))
    && (t.tag != "http" && t.tag != "tcp" ==> r.Refused?)
  }

  lemma AnsweredTunnel(cfg: Config, t: Wanted, r: Reply)
    requires Answers(cfg, Registration(t), r)
    ensures AnswersTunnel(cfg, t, r)
  {
    hide BuildPublicHTTPURL, BuildTcpURL;
    assert "tcp"[0] != "http"[0];
  }

  /** A handler that has received the client's registrations and is idle again has answered them all. */
  lemma HandlerAnswersAll(cfg: Config, s: Sys, id: string, tunnels: seq<Wanted>)
    requires Reachable(cfg, s) && id in s.handlers && s.handlers[id].pc.Idle?
    requires s.handlers[id].received == Registrations(tunnels)
    ensures AllAnswered(cfg, tunnels, s.handlers[id].replies)
  {
    AnsweredInOrder(cfg, s, id);
    hide Reachable;
    var h := s.handlers[id];
    assert forall i :: 0 <= i < |h.replies| ==> Answers(cfg, h.received[i], h.replies[i]);
  }

  /**
    The i-th answer that connecting reads answers the i-th tunnel, with its name and its URL; and
    exactly as many answers stay unread as other messages came among the first ones.
  */
  lemma AnswersReachTunnels(cfg: Config, tunnels: seq<Wanted>, incoming: seq<Message>)
    requires AllAnswered(cfg, tunnels, Replies(incoming))
    ensures |tunnels| <= |incoming|
    ensures var seen := Replies(incoming[..|tunnels|]);
            && |seen| <= |tunnels|
            && (forall i :: 0 <= i < |seen| ==>
                  seen[i].name == tunnels[i].name && Answers(cfg, Registration(tunnels[i]), seen[i]))
    ensures |Replies(incoming[|tunnels|..])| == Others(incoming[..|tunnels|])
    ensures Replies(incoming[|tunnels|..]) == [] <==> forall m :: m in incoming[..|tunnels|] ==> m.Answer?
  {
    var n := |tunnels|;
    var first, rest := incoming[..n], incoming[n..];
    assert incoming == first + rest;
    RepliesAppend(first, rest);
    OthersNone(first);
    hide Answers;
    assert forall i :: 0 <= i < |Replies(first)| ==> Replies(first)[i] == Replies(incoming)[i];
  }

  lemma {:induction false} OthersNone(ms: seq<Message>)
    ensures Others(ms) == 0 <==> forall m :: m in ms ==> m.Answer?
  {
    if ms != [] {
      var n := |ms| - 1;
      OthersNone(ms[..n]);
      assert ms == ms[..n] + [ms[n]];
    }
  }

  /** When the server sends nothing else, the i-th message is the i-th tunnel's answer and none is left. */
  lemma QuietHandshake(cfg: Config, tunnels: seq<Wanted>, incoming: seq<Message>)
    requires AllAnswered(cfg, tunnels, Replies(incoming)) && Others(incoming) == 0
    ensures |incoming| == |tunnels|
    ensures forall i :: 0 <= i < |tunnels| ==> incoming[i].Answer? && incoming[i].reply.name == tunnels[i].name
  {
    hide Answers, Replies, Registration;
    OthersNone(incoming);
    AllAnswers(incoming);
    forall i | 0 <= i < |tunnels|
      ensures incoming[i].Answer? && incoming[i].reply.name == tunnels[i].name
    {
      assert incoming[i] in incoming && Replies(incoming)[i] == incoming[i].reply;
    }
  }

  /**
    Both ends: a handler has received the client's registrations and is idle again, and the server has
    sent nothing but its answers. Then connecting returns exactly these and leaves nothing unread.
  */
  lemma BothEnds(cfg: Config, s: Sys, id: string, tunnels: seq<Wanted>, incoming: seq<Message>, room: nat)
    requires Reachable(cfg, s) && id in s.handlers && s.handlers[id].pc.Idle?
    requires s.handlers[id].received == Registrations(tunnels)
    requires Replies(incoming) == s.handlers[id].replies && Others(incoming) == 0 && |tunnels| <= room
    ensures Connected(incoming, room, |tunnels|) == Ok(s.handlers[id].replies)
    ensures incoming[|tunnels|..] == []
    ensures forall i :: 0 <= i < |tunnels| ==> i < |incoming| && incoming[i].Answer? && AnswersTunnel(cfg, tunnels[i], incoming[i].reply)
  {
    hide AnswersTunnel, Reachable, Answers;
    HandlerAnswersAll(cfg, s, id, tunnels);
    OthersNone(incoming);
    AllAnswers(incoming);
    forall i | 0 <= i < |tunnels|
      ensures i < |incoming| && incoming[i].Answer? && AnswersTunnel(cfg, tunnels[i], incoming[i].reply)
    {
      assert incoming[i] in incoming && Replies(incoming)[i] == incoming[i].reply;
      AnsweredTunnel(cfg, tunnels[i], incoming[i].reply);
    }
    QuietHandshake(cfg, tunnels, incoming);
    assert incoming[..|tunnels|] == incoming;
  }

  lemma {:induction false} AllAnswers(ms: seq<Message>)
    requires forall m :: m in ms ==> m.Answer?
    ensures |Replies(ms)| == |ms| && forall i :: 0 <= i < |ms| ==> Replies(ms)[i] == ms[i].reply
  {
    if ms != [] {
      var n := |ms| - 1;
      assert forall m :: m in ms[..n] ==> m in ms;
      assert ms[n] in ms;
      AllAnswers(ms[..n]);
    }
  }
}
