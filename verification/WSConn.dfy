/** The message socket seen as a byte stream: what readers get back, whatever the sizes of messages and buffers. */
module WSConn {
  import opened Common
  import opened ByteStreams

  /** The messages that still carry bytes. */
  function NonEmpty(ms: seq<Bytes>): seq<Bytes> {
    if ms == [] then [] else if ms[0] == [] then NonEmpty(ms[1..]) else [ms[0]] + NonEmpty(ms[1..])
  }

  lemma {:induction false} NonEmptyConcat(ms: seq<Bytes>)
    ensures Concat(NonEmpty(ms)) == Concat(ms)
    ensures forall m :: m in NonEmpty(ms) ==> m != []
  {
    if ms != [] {
      NonEmptyConcat(ms[1..]);
      if ms[0] != [] {
        assert NonEmpty(ms)[1..] == NonEmpty(ms[1..]);
      }
    }
  }

  lemma {:induction false} NonEmptyAppend(a: seq<Bytes>, b: seq<Bytes>)
    ensures NonEmpty(a + b) == NonEmpty(a) + NonEmpty(b)
  {
    if a == [] {
      assert a + b == b;
    } else {
      NonEmptyAppend(a[1..], b);
      assert (a + b)[1..] == a[1..] + b;
      ConcatAssociates([a[0]], NonEmpty(a[1..]), NonEmpty(b));
    }
  }

  function Min(a: nat, b: nat): nat {
    if a <= b then a else b
  }

  /** One read of at most size bytes: it never crosses the end of a message. */
  function Taken(ms: seq<Bytes>, size: nat): Bytes {
    if ms == [] then [] else ms[0][..Min(size, |ms[0]|)]
  }

  function Left(ms: seq<Bytes>, size: nat): seq<Bytes> {
    if ms == [] then [] else NonEmpty([ms[0][Min(size, |ms[0]|)..]]) + ms[1..]
  }

  class Conn {
    /** The unread rest of the current message. */
    var reader: Option<Bytes>
    /** The messages that the socket will deliver before it reports an error. */
    var incoming: seq<Bytes>
    /** The buffers that were handed to the socket. */
    var outgoing: seq<array<byte>>
    /** A reader may report the end of a message together with its last bytes, or only after them. */
    const eager: bool

    constructor (incoming: seq<Bytes>, eager: bool)
      ensures Unread() == NonEmpty(incoming) && outgoing == []
    {
      this.reader, this.incoming, this.outgoing, this.eager := None, incoming, [], eager;
      new;
      assert [] + incoming == incoming;
    }

    ghost function Unread(): seq<Bytes>
      reads this
    {
      NonEmpty((if reader.Some? then [reader.value] else []) + incoming)
    }

    method Read(b: array<byte>) returns (n: nat, ok: bool)
      modifies this`reader, this`incoming, b
      ensures ok <==> old(Unread()) != []
      ensures n <= b.Length && b[..n] == Taken(old(Unread()), b.Length)
      ensures ok ==> n == Min(b.Length, |old(Unread())[0]|) && b[..n] == old(Unread())[0][..n]
      ensures b[n..] == old(b[n..])
      ensures Unread() == Left(old(Unread()), b.Length)
    {
      ghost var was := Unread();
      while true
        invariant Unread() == was && b[..] == old(b[..])
        decreases |incoming|, reader.Some?
      {
        if reader.Some? {
          var rest := reader.value;
          var count: nat := Min(b.Length, |rest|);
          forall i | 0 <= i < count {
            b[i] := rest[i];
          }
          var eof := rest == [] || (eager && count == |rest|);
          reader := Some(rest[count..]);
          assert rest != [] ==> was == [rest] + NonEmpty(incoming);
          assert Unread() == NonEmpty([rest[count..]]) + NonEmpty(incoming) by {
            NonEmptyAppend([rest[count..]], incoming);
          }
          if eof {
            reader := None;
            assert [] + incoming == incoming;
            if count > 0 {
              return count, true;
            }
            continue;
          }
          return count, true;
        }
        assert [] + incoming == incoming;
        if incoming == [] {
          return 0, false;
        }
        assert [incoming[0]] + incoming[1..] == incoming;
        reader, incoming := Some(incoming[0]), incoming[1..];
      }
    }

    /** The socket gets a buffer of its own, so the caller may reuse b at once. */
    method Write(b: array<byte>, accepted: bool) returns (n: nat, ok: bool)
      modifies this`outgoing
      ensures ok == accepted && n == if ok then b.Length else 0
      ensures !ok ==> outgoing == old(outgoing)
      ensures ok ==> |outgoing| == |old(outgoing)| + 1 && old(outgoing) <= outgoing
      ensures ok ==> fresh(outgoing[|old(outgoing)|]) && outgoing[|old(outgoing)|][..] == b[..]
    {
      var buf := new byte[b.Length];
      forall i | 0 <= i < b.Length {
        buf[i] := b[i];
      }
      if !accepted {
        return 0, false;
      }
      outgoing := outgoing + [buf];
      return b.Length, true;
    }
  }

  // ----- runs

  datatype Event = Written(message: Bytes) | Read(size: nat)

  /** What the reads of a run returned, one item a read. */
  function Returned(ms: seq<Bytes>, events: seq<Event>): seq<Bytes>
    decreases |events|
  {
    if events == [] then [] else
      match events[0]
      case Written(m) => Returned(ms + NonEmpty([m]), events[1..])
      case Read(size) => [Taken(ms, size)] + Returned(Left(ms, size), events[1..])
  }

  function Pending(ms: seq<Bytes>, events: seq<Event>): seq<Bytes>
    decreases |events|
  {
    if events == [] then ms else
      match events[0]
      case Written(m) => Pending(ms + NonEmpty([m]), events[1..])
      case Read(size) => Pending(Left(ms, size), events[1..])
  }

  function AllWritten(events: seq<Event>): Bytes {
    if events == [] then [] else
      (match events[0] case Written(m) => m case Read(_) => []) + AllWritten(events[1..])
  }

  ghost predicate AllCarry(ms: seq<Bytes>) {
    forall m :: m in ms ==> m != []
  }

  lemma LeftCarries(ms: seq<Bytes>, size: nat)
    requires AllCarry(ms)
    ensures AllCarry(Left(ms, size))
    ensures ms != [] && size > 0 ==> 0 < |Taken(ms, size)| <= size
  {
    hide NonEmpty;
    if ms != [] {
      assert ms[0] in ms && forall m :: m in ms[1..] ==> m in ms;
      NonEmptyConcat([ms[0][Min(size, |ms[0]|)..]]);
    }
  }

  lemma TakenLeft(ms: seq<Bytes>, size: nat)
    requires AllCarry(ms)
    ensures Taken(ms, size) + Concat(Left(ms, size)) == Concat(ms)
    ensures AllCarry(Left(ms, size))
    ensures ms != [] && size > 0 ==> 0 < |Taken(ms, size)| <= size
    ensures ms != [] ==> |Taken(ms, size)| == (if size <= |ms[0]| then size else |ms[0]|) && Taken(ms, size) <= ms[0]
  {
    hide NonEmpty, AllCarry;
    LeftCarries(ms, size);
    if ms != [] {
      var k := Min(size, |ms[0]|);
      var rest := ms[0][k..];
      NonEmptyConcat([rest]);
      ConcatAppend(NonEmpty([rest]), ms[1..]);
      assert [rest][1..] == [] && rest + [] == rest;
      ConcatAssociates(ms[0][..k], rest, Concat(ms[1..]));
      assert ms[0][..k] + rest == ms[0];
    }
  }

  lemma Regroup(t: Bytes, a: Bytes, b: Bytes, left: Bytes, w: Bytes)
    requires a + b == left + w
    ensures (t + a) + b == (t + left) + w
  {
    assert (t + a) + b == t + (a + b);
  }

  /** No byte is lost, doubled or reordered: what was read and what is still unread is what was written. */
  lemma {:induction false} StreamKept(ms: seq<Bytes>, events: seq<Event>)
    requires AllCarry(ms)
    ensures Concat(Returned(ms, events)) + Concat(Pending(ms, events)) == Concat(ms) + AllWritten(events)
    ensures AllCarry(Pending(ms, events))
    decreases |events|
  {
    if events != [] {
      var rest := events[1..];
      match events[0]
      case Written(m) =>
        NonEmptyConcat([m]);
        ConcatAppend(ms, NonEmpty([m]));
        assert Concat([m]) == m;
        StreamKept(ms + NonEmpty([m]), rest);
      case Read(size) =>
        TakenLeft(ms, size);
        StreamKept(Left(ms, size), rest);
        var t, left := Taken(ms, size), Left(ms, size);
        assert ([t] + Returned(left, rest))[1..] == Returned(left, rest);
        Regroup(t, Concat(Returned(left, rest)), Concat(Pending(left, rest)), Concat(left), AllWritten(rest));
        assert [] + AllWritten(rest) == AllWritten(rest);
    }
  }

  function Writes(chunks: seq<Bytes>): seq<Event> {
    if chunks == [] then [] else [Written(chunks[0])] + Writes(chunks[1..])
  }

  function Reads(sizes: seq<nat>): seq<Event> {
    if sizes == [] then [] else [Read(sizes[0])] + Reads(sizes[1..])
  }

  lemma {:induction false} WritesThen(ms: seq<Bytes>, chunks: seq<Bytes>, events: seq<Event>)
    ensures Returned(ms, Writes(chunks) + events) == Returned(ms + NonEmpty(chunks), events)
    ensures AllWritten(Writes(chunks)) == Concat(chunks)
    decreases |chunks|
  {
    var all := Writes(chunks) + events;
    if chunks == [] {
      assert all == events && ms + NonEmpty(chunks) == ms;
    } else {
      var first := NonEmpty([chunks[0]]);
      WritesThen(ms + first, chunks[1..], events);
      assert all[1..] == Writes(chunks[1..]) + events;
      assert Writes(chunks)[1..] == Writes(chunks[1..]);
      NonEmptyAppend([chunks[0]], chunks[1..]);
      assert [chunks[0]] + chunks[1..] == chunks;
      assert (ms + first) + NonEmpty(chunks[1..]) == ms + NonEmpty(chunks);
    }
  }

  /** Reads into nonempty buffers make progress until nothing is left. */
  lemma {:induction false} ReadsDrain(ms: seq<Bytes>, sizes: seq<nat>)
    requires AllCarry(ms) && (forall k :: k in sizes ==> k > 0) && |sizes| >= |Concat(ms)|
    ensures Concat(Returned(ms, Reads(sizes))) == Concat(ms)
    decreases |sizes|
  {
    if ms != [] {
      assert ms[0] in ms && |Concat(ms)| >= |ms[0]|;
    }
    if sizes != [] {
      assert sizes[0] in sizes && forall k :: k in sizes[1..] ==> k in sizes;
      TakenLeft(ms, sizes[0]);
      ReadsDrain(Left(ms, sizes[0]), sizes[1..]);
      assert Reads(sizes)[1..] == Reads(sizes[1..]);
      var t, r := Taken(ms, sizes[0]), Returned(Left(ms, sizes[0]), Reads(sizes[1..]));
      assert ([t] + r)[1..] == r;
    }
  }

  /** Two ways of cutting the same bytes into writes, and any buffer sizes: the reader gets the same stream. */
  lemma AnyChunkingReadsBack(chunks: seq<Bytes>, sizes: seq<nat>)
    requires (forall k :: k in sizes ==> k > 0) && |sizes| >= |Concat(chunks)|
    ensures Concat(Returned([], Writes(chunks) + Reads(sizes))) == Concat(chunks)
  {
    WritesThen([], chunks, Reads(sizes));
    NonEmptyConcat(chunks);
    assert [] + NonEmpty(chunks) == NonEmpty(chunks);
    ReadsDrain(NonEmpty(chunks), sizes);
  }
}
