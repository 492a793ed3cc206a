/**
  A data stream between server and client: the server writes a header line and then the visitor's bytes;
  the client splits the line off, picks the local address and forwards the rest.
*/
module DataStream {
  import opened Common
  import opened ByteStreams
  import opened Json
  import Utf8

  const NEWLINE: byte := 10

  /** The line that announces the tunnel on a new stream. */
  function HeaderLine(h: Header): Bytes {
    Utf8.Encode(Print(h)) + [NEWLINE]
  }

  // ----- the buffered reader

  class Reader {
    var buffered: Bytes
    /** What the stream will still deliver, cut as it happens to arrive. */
    var arriving: seq<Bytes>

    constructor (arriving: seq<Bytes>)
      ensures Stream() == Concat(arriving)
    {
      this.buffered, this.arriving := [], arriving;
    }

    ghost function Stream(): Bytes
      reads this
    {
      buffered + Concat(arriving)
    }

    /** All bytes up to and with the first delimiter; the stream ends without one exactly when it has none. */
    method ReadBytes(delim: byte) returns (line: Bytes, ok: bool)
      modifies this
      ensures ok <==> delim in old(Stream())
      ensures line + Stream() == old(Stream())
      ensures ok ==> line != [] && line[|line| - 1] == delim && delim !in line[..|line| - 1]
      ensures !ok ==> Stream() == []
    {
      line := [];
      ghost var was := Stream();
      while true
        invariant line + (buffered + Concat(arriving)) == was && delim !in line
        decreases |arriving|
      {
        var k := Find(buffered, delim);
        if k < |buffered| {
          line, buffered := line + buffered[..k + 1], buffered[k + 1..];
          return line, true;
        }
        line := line + buffered;
        if arriving == [] {
          buffered := [];
          return line, false;
        }
        buffered, arriving := arriving[0], arriving[1..];
      }
    }

    /** io.Copy from this reader: first what it has buffered, then what arrives. */
    method CopyAll() returns (copied: Bytes)
      modifies this
      ensures copied == old(Stream()) && Stream() == []
    {
      ghost var was := Stream();
      copied, buffered := buffered, [];
      while arriving != []
        invariant copied + Concat(arriving) == was && buffered == []
        decreases |arriving|
      {
        copied, arriving := copied + arriving[0], arriving[1..];
      }
    }
  }

  function Find(bs: Bytes, b: byte): (k: nat)
    ensures k <= |bs| && (k < |bs| ==> bs[k] == b)
    ensures b !in bs[..k]
    ensures k == |bs| ==> b !in bs
  {
    if bs == [] || bs[0] == b then 0
    else
      var k := Find(bs[1..], b);
      assert bs[..k + 1] == [bs[0]] + bs[1..][..k];
      assert bs == [bs[0]] + bs[1..];
      k + 1
  }

  // ----- the client's end

  datatype Forward = Forward(name: string, local: string, kind: string)

  datatype Outcome =
    | HeaderMissing
    | HeaderMalformed
    | NoLocalAddress
    /** The local service does not answer; an HTTP visitor is sent a 502. */
    | DialFailed(addr: string, answered: bool)
    | Proxied(addr: string, forwarded: Bytes)

  /** The first configured tunnel with this name. */
  function Configured(tunnels: seq<Forward>, name: string): Option<Forward> {
    if tunnels == [] then None
    else if tunnels[0].name == name then Some(tunnels[0])
    else Configured(tunnels[1..], name)
  }

  lemma {:induction false} ConfiguredIsFirst(tunnels: seq<Forward>, name: string, i: nat)
    requires i < |tunnels| && tunnels[i].name == name && forall j :: 0 <= j < i ==> tunnels[j].name != name
    ensures Configured(tunnels, name) == Some(tunnels[i])
  {
    if i > 0 {
      ConfiguredIsFirst(tunnels[1..], name, i - 1);
    }
  }

  lemma {:induction false} ConfiguredNone(tunnels: seq<Forward>, name: string)
    requires forall j :: 0 <= j < |tunnels| ==> tunnels[j].name != name
    ensures Configured(tunnels, name) == None
  {
    if tunnels != [] {
      ConfiguredNone(tunnels[1..], name);
    }
  }

  function LocalAddress(h: Header, tunnels: seq<Forward>): string {
    if h.localAddr != "" then h.localAddr
    else match Configured(tunnels, h.tunnelName) case Some(t) => t.local case None => ""
  }

  /** A visitor is sent an HTTP error unless the tunnel is known to be a TCP one. */
  predicate SpeaksHttp(h: Header, tunnels: seq<Forward>) {
    match Configured(tunnels, h.tunnelName) case Some(t) => t.kind != "tcp" case None => true
  }

  /** What the client does with a stream whose header was h and whose other bytes are payload. */
  function Served(h: Header, payload: Bytes, tunnels: seq<Forward>, answering: set<string>): Outcome {
    var addr := LocalAddress(h, tunnels);
    if addr == "" then NoLocalAddress
    else if addr !in answering then DialFailed(addr, SpeaksHttp(h, tunnels))
    else Proxied(addr, payload)
  }

  function Handled(stream: Bytes, tunnels: seq<Forward>, answering: set<string>): Outcome {
    if NEWLINE !in stream then HeaderMissing
    else
      var k := Find(stream, NEWLINE);
      match Parse(Utf8.Decode(stream[..k + 1]))
      case None => HeaderMalformed
      case Some(h) => Served(h, stream[k + 1..], tunnels, answering)
  }

  lemma {:induction false} FindsSplit(line: Bytes, rest: Bytes, b: byte)
    requires b !in line
    ensures Find(line + [b] + rest, b) == |line|
  {
    var all := line + [b] + rest;
    if line != [] {
      assert line[0] in line && forall c :: c in line[1..] ==> c in line;
      assert all[0] == line[0] && all[1..] == line[1..] + [b] + rest;
      FindsSplit(line[1..], rest, b);
    }
  }

  method HandleDataStream(stream: Reader, tunnels: seq<Forward>, answering: set<string>) returns (o: Outcome)
    modifies stream
    ensures o == Handled(old(stream.Stream()), tunnels, answering)
  {
    ghost var was := stream.Stream();
    hide Find, Parse, Utf8.Decode, Configured;
    var line, ok := stream.ReadBytes(NEWLINE);
    if !ok {
      return HeaderMissing;
    }
    LineFound(was, line, stream.Stream());
    var parsed := Parse(Utf8.Decode(line));
    if parsed.None? {
      return HeaderMalformed;
    }
    var hdr := parsed.value;
    var localAddr, tunnelType := Choose(hdr, tunnels);
    if localAddr == "" {
      return NoLocalAddress;
    }
    if localAddr !in answering {
      return DialFailed(localAddr, tunnelType != "tcp");
    }
    var forwarded := stream.CopyAll();
    return Proxied(localAddr, forwarded);
  }

  lemma LineFound(was: Bytes, line: Bytes, rest: Bytes)
    requires was == line + rest && line != [] && line[|line| - 1] == NEWLINE && NEWLINE !in line[..|line| - 1]
    ensures NEWLINE in was && Find(was, NEWLINE) == |line| - 1
    ensures was[..|line|] == line && was[|line|..] == rest
  {
    var start := line[..|line| - 1];
    FindsSplit(start, rest, NEWLINE);
    assert line == start + [NEWLINE] && was == start + [NEWLINE] + rest;
    assert was[|start|] == NEWLINE;
  }

  /** The loop over the configured tunnels. */
  method Choose(hdr: Header, tunnels: seq<Forward>) returns (localAddr: string, tunnelType: string)
    ensures localAddr == LocalAddress(hdr, tunnels)
    ensures tunnelType != "tcp" <==> SpeaksHttp(hdr, tunnels)
  {
    localAddr, tunnelType := hdr.localAddr, "http";
    assert tunnelType[0] != "tcp"[0];
    for i := 0 to |tunnels|
      invariant localAddr == hdr.localAddr && tunnelType == "http"
      invariant forall j :: 0 <= j < i ==> tunnels[j].name != hdr.tunnelName
    {
      if tunnels[i].name == hdr.tunnelName {
        ConfiguredIsFirst(tunnels, hdr.tunnelName, i);
        if localAddr == "" {
          localAddr := tunnels[i].local;
        }
        tunnelType := tunnels[i].kind;
        return;
      }
    }
    ConfiguredNone(tunnels, hdr.tunnelName);
  }

  // ----- both ends together

  /** The header line ends at its first newline, whatever the name and the address contain. */
  lemma HeaderIsOneLine(h: Header)
    ensures NEWLINE !in Utf8.Encode(Print(h))
    ensures Parse(Utf8.Decode(HeaderLine(h))) == Some(h)
  {
    PrintOneLine(h);
    ParsePrint(h);
    hide Parse, Print;
    Utf8.AsciiBytes(Print(h), NEWLINE);
    LineEnd();
    hide Utf8.Encode, Utf8.Decode;
    Utf8.EncodeAppend(Print(h), "\n");
    Utf8.DecodeEncode(Print(h) + "\n");
  }

  lemma LineEnd()
    ensures Utf8.Encode("\n") == [NEWLINE]
  {
    assert "\n"[1..] == "" && Utf8.EncodeChar('\n') == [NEWLINE];
  }

  /**
    The client recovers the header exactly and forwards exactly the payload. What it does depends on
    the stream's bytes alone, so this holds in whatever pieces they arrive.
  */
  lemma HeaderAndPayloadArrive(h: Header, payload: Bytes, tunnels: seq<Forward>, answering: set<string>)
    ensures Handled(HeaderLine(h) + payload, tunnels, answering) == Served(h, payload, tunnels, answering)
    ensures h.localAddr != "" && h.localAddr in answering ==>
              Handled(HeaderLine(h) + payload, tunnels, answering) == Proxied(h.localAddr, payload)
  {
    hide Parse, Print, Utf8.Encode, Utf8.Decode;
    var line := Utf8.Encode(Print(h));
    var stream := HeaderLine(h) + payload;
    HeaderIsOneLine(h);
    FindsSplit(line, payload, NEWLINE);
    assert stream[|line|] == NEWLINE;
    assert stream[..|line| + 1] == HeaderLine(h) && stream[|line| + 1..] == payload;
  }

  /** i is the position of the first configured tunnel with this name. */
  predicate FirstNamed(tunnels: seq<Forward>, name: string, i: int) {
    0 <= i < |tunnels| && tunnels[i].name == name && forall j :: 0 <= j < i ==> tunnels[j].name != name
  }

  /** The address to dial: the header's; if it names none, the first such tunnel's; empty without either. */
  ghost predicate Addressed(h: Header, tunnels: seq<Forward>, addr: string) {
    if h.localAddr != "" then addr == h.localAddr
    else
      || (exists i :: FirstNamed(tunnels, h.tunnelName, i) && addr == tunnels[i].local)
      || (addr == "" && forall i :: !FirstNamed(tunnels, h.tunnelName, i))
  }

  lemma {:induction false} FirstNamedExists(tunnels: seq<Forward>, name: string) returns (i: nat)
    ensures i <= |tunnels| && (i < |tunnels| ==> FirstNamed(tunnels, name, i))
    ensures i == |tunnels| ==> forall j :: 0 <= j < |tunnels| ==> tunnels[j].name != name
  {
    if tunnels == [] || tunnels[0].name == name {
      i := 0;
    } else {
      var k := FirstNamedExists(tunnels[1..], name);
      i := k + 1;
    }
  }

  lemma ConfiguredExactly(tunnels: seq<Forward>, name: string)
    ensures forall i :: FirstNamed(tunnels, name, i) ==> Configured(tunnels, name) == Some(tunnels[i])
    ensures (forall i :: !FirstNamed(tunnels, name, i)) ==> Configured(tunnels, name) == None
  {
    forall i | FirstNamed(tunnels, name, i)
      ensures Configured(tunnels, name) == Some(tunnels[i])
    {
      ConfiguredIsFirst(tunnels, name, i);
    }
    var k := FirstNamedExists(tunnels, name);
    if k == |tunnels| {
      ConfiguredNone(tunnels, name);
    }
  }

  /**
    What comes of a stream whose address is addr and whose other bytes are payload. A failed dial is
    answered with an HTTP error unless the first tunnel of that name is a TCP one.
  */
  ghost predicate ComesOf(o: Outcome, name: string, addr: string, payload: Bytes, tunnels: seq<Forward>,
                          answering: set<string>) {
    if addr == "" then o == NoLocalAddress
    else if addr in answering then o == Proxied(addr, payload)
    else
      && o.DialFailed? && o.addr == addr
      && (o.answered <==> forall i :: FirstNamed(tunnels, name, i) ==> tunnels[i].kind != "tcp")
  }

  /** So it is for every stream with a header. */
  lemma StreamOutcome(h: Header, payload: Bytes, tunnels: seq<Forward>, answering: set<string>, addr: string)
    requires Addressed(h, tunnels, addr)
    ensures ComesOf(Handled(HeaderLine(h) + payload, tunnels, answering), h.tunnelName, addr, payload, tunnels, answering)
  {
    hide Handled, HeaderLine, Configured;
    HeaderAndPayloadArrive(h, payload, tunnels, answering);
    ConfiguredExactly(tunnels, h.tunnelName);
    var k := FirstNamedExists(tunnels, h.tunnelName);
    assert LocalAddress(h, tunnels) == addr;
    assert k < |tunnels| ==> FirstNamed(tunnels, h.tunnelName, k);
  }

  /** Without a newline there is no header; a first line that does not parse is malformed, whatever follows. */
  lemma BadHeaders(stream: Bytes, line: Bytes, rest: Bytes, tunnels: seq<Forward>, answering: set<string>)
    requires NEWLINE !in line
    ensures NEWLINE !in stream ==> Handled(stream, tunnels, answering) == HeaderMissing
    ensures Parse(Utf8.Decode(line + [NEWLINE])) == None ==>
              Handled(line + [NEWLINE] + rest, tunnels, answering) == HeaderMalformed
  {
    hide Find, Parse, Utf8.Decode;
    FindsSplit(line, rest, NEWLINE);
    var all := line + [NEWLINE] + rest;
    assert all[|line|] == NEWLINE && all[..|line| + 1] == line + [NEWLINE];
  }

  /** A stream that arrives in pieces, and the client's handling of it. */
  method HandleArriving(arriving: seq<Bytes>, tunnels: seq<Forward>, answering: set<string>) returns (o: Outcome)
    ensures o == Handled(Concat(arriving), tunnels, answering)
  {
    var stream := new Reader(arriving);
    o := HandleDataStream(stream, tunnels, answering);
  }
}
