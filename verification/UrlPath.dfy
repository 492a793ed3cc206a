/** Paths in URLs: what a browser makes of a list of segments, and what the HTTP server reads back. */
module UrlPath {
  import opened Common
  import opened GoStrings
  import opened ByteStreams
  import opened PathClean
  import Utf8

  // ----- percent encoding, RFC 3986 section 2.1

  const HEX := "0123456789ABCDEF"

  /** The characters that encodeURIComponent leaves alone. */
  predicate Unreserved(c: char) {
    'A' <= c <= 'Z' || 'a' <= c <= 'z' || '0' <= c <= '9' || c in "-_.!~*'()"
  }

  function EscapeByte(b: byte): (e: string)
    ensures e != ""
  {
    var c := b as int as char;
    if b < 0x80 && Unreserved(c) then [c] else ['%', HEX[b as int / 16], HEX[b as int % 16]]
  }

  function EscapeBytes(bs: Bytes): string {
    if bs == [] then "" else EscapeByte(bs[0]) + EscapeBytes(bs[1..])
  }

  /** encodeURIComponent */
  function Component(s: string): string {
    EscapeBytes(Utf8.Encode(s))
  }

  function HexDigit(c: char): Option<int> {
    if '0' <= c <= '9' then Some(c as int - '0' as int)
    else if 'A' <= c <= 'F' then Some(c as int - 'A' as int + 10)
    else if 'a' <= c <= 'f' then Some(c as int - 'a' as int + 10)
    else None
  }

  /** The first byte of a URL path and the width of its text. */
  function UnescapeFirst(url: string): (r: Option<(byte, nat)>)
    requires url != ""
    ensures r.Some? ==> 0 < r.value.1 <= |url|
  {
    if url[0] != '%' then (if url[0] as int < 0x80 then Some((url[0] as int as byte, 1)) else None)
    else if |url| < 3 then None
    else
      match (HexDigit(url[1]), HexDigit(url[2]))
      case (Some(a), Some(b)) =>
        if 0 <= a < 16 && 0 <= b < 16 then Some(((16 * a + b) as byte, 3)) else None
      case _ => None
  }

  function Unescape(url: string): Option<Bytes>
    decreases |url|
  {
    if url == "" then Some([])
    else
      match UnescapeFirst(url)
      case None => None
      case Some((b, width)) =>
        match Unescape(url[width..]) case Some(bs) => Some([b] + bs) case None => None
  }

  lemma HexBack(n: int)
    requires 0 <= n < 16
    ensures HexDigit(HEX[n]) == Some(n)
  {
  }

  lemma FirstBack(b: byte, rest: string)
    ensures UnescapeFirst(EscapeByte(b) + rest) == Some((b, |EscapeByte(b)|))
  {
    var e := EscapeByte(b);
    var url := e + rest;
    assert forall i | 0 <= i < |e| :: url[i] == e[i];
    if |e| == 3 {
      HexBack(b as int / 16);
      HexBack(b as int % 16);
      hide HexDigit;
      assert b as int == 16 * (b as int / 16) + b as int % 16;
    } else {
      assert e[0] != '%';
    }
  }

  lemma UnescapeStep(b: byte, text: string, tail: string)
    requires text != "" && UnescapeFirst(text + tail) == Some((b, |text|)) && Unescape(tail).Some?
    ensures Unescape(text + tail) == Some([b] + Unescape(tail).value)
  {
    hide UnescapeFirst;
    assert (text + tail)[|text|..] == tail;
  }

  lemma {:induction false} EscapeBack(bs: Bytes, rest: string)
    requires Unescape(rest).Some?
    ensures Unescape(EscapeBytes(bs) + rest) == Some(bs + Unescape(rest).value)
  {
    hide UnescapeFirst, EscapeByte, Unescape;
    if bs == [] {
      assert EscapeBytes(bs) + rest == rest;
      assert bs + Unescape(rest).value == Unescape(rest).value;
    } else {
      var e, more := EscapeByte(bs[0]), EscapeBytes(bs[1..]);
      EscapeBack(bs[1..], rest);
      FirstBack(bs[0], more + rest);
      UnescapeStep(bs[0], e, more + rest);
      assert EscapeBytes(bs) + rest == e + (more + rest);
      hide EscapeBytes;
      assert [bs[0]] + (bs[1..] + Unescape(rest).value) == bs + Unescape(rest).value;
    }
  }

  lemma {:induction false} EscapedHasNoSlash(bs: Bytes)
    ensures '/' !in EscapeBytes(bs)
  {
    if bs != [] {
      EscapedHasNoSlash(bs[1..]);
      assert forall i | 0 <= i < 16 :: HEX[i] != '/';
    }
  }

  /** Segments are told apart by what they are encoded to. */
  lemma ComponentInjective(s: string, t: string)
    requires Component(s) == Component(t)
    ensures s == t
  {
    EscapeBack(Utf8.Encode(s), "");
    EscapeBack(Utf8.Encode(t), "");
    assert Component(s) + "" == Component(s);
    assert Utf8.Encode(s) + [] == Utf8.Encode(s) && Utf8.Encode(t) + [] == Utf8.Encode(t);
    Utf8.DecodeEncode(s);
    Utf8.DecodeEncode(t);
  }

  lemma {:induction false} PlainComponent(s: string)
    requires forall c :: c in s ==> Unreserved(c)
    ensures Component(s) == s
  {
    if s != "" {
      assert s[0] in s && forall c :: c in s[1..] ==> c in s;
      PlainComponent(s[1..]);
      var b := s[0] as int as byte;
      assert Utf8.EncodeChar(s[0]) == [b];
      assert Utf8.Encode(s) == [b] + Utf8.Encode(s[1..]);
      assert Utf8.Encode(s)[1..] == Utf8.Encode(s[1..]);
      assert EscapeByte(b) == [s[0]];
    }
  }

  lemma OrdinaryComponent(s: string)
    ensures Ordinary(Component(s)) <==> s !in ["", ".", ".."]
    ensures Component(s) == "" <==> s == ""
    ensures '/' !in Component(s)
  {
    EscapedHasNoSlash(Utf8.Encode(s));
    PlainComponent("");
    PlainComponent(".");
    PlainComponent("..");
    if Component(s) in ["", ".", ".."] {
      ComponentInjective(s, Component(s)) by {
        assert Component(Component(s)) == Component(s);
      }
    }
  }

  // ----- paths of segments

  function Path(segments: seq<string>): string {
    if segments == [] then "" else "/" + segments[0] + Path(segments[1..])
  }

  function Components(segments: seq<string>): (cs: seq<string>)
    ensures |cs| == |segments| && forall i :: 0 <= i < |cs| ==> cs[i] == Component(segments[i])
  {
    seq(|segments|, i requires 0 <= i < |segments| => Component(segments[i]))
  }

  function Url(segments: seq<string>): string {
    Path(Components(segments))
  }

  /** The path that the server sees in a URL. */
  function PathOf(url: string): Option<string> {
    match Unescape(url) case Some(bs) => Some(Utf8.Decode(bs)) case None => None
  }

  lemma SlashBack(rest: string)
    requires Unescape(rest).Some?
    ensures Unescape("/" + rest) == Some(Utf8.Encode("/") + Unescape(rest).value)
  {
    var slash := [47 as byte];
    assert Utf8.Encode("/") == slash by {
      assert "/"[1..] == "" && Utf8.EncodeChar('/') == slash;
    }
    UnescapeStep(47, "/", rest) by {
      assert UnescapeFirst("/" + rest) == Some((47 as byte, 1));
    }
  }

  lemma PathCons(segment: string, rest: seq<string>)
    ensures Path([segment] + rest) == "/" + (segment + Path(rest))
  {
    assert ([segment] + rest)[1..] == rest;
  }

  lemma {:induction false} UnescapeUrl(segments: seq<string>)
    ensures Unescape(Url(segments)) == Some(Utf8.Encode(Path(segments)))
  {
    if segments != [] {
      var s, rest := segments[0], segments[1..];
      UnescapeUrl(rest);
      PathCons(s, rest);
      PathCons(Component(s), Components(rest));
      assert Components(segments) == [Component(s)] + Components(rest) && segments == [s] + rest;
      hide Unescape, Utf8.Encode, Path;
      EscapeBack(Utf8.Encode(s), Url(rest));
      SlashBack(Component(s) + Url(rest));
      Utf8.EncodeAppend(s, Path(rest));
      Utf8.EncodeAppend("/", s + Path(rest));
    }
  }

  /** Segments arrive as they were, whatever characters they contain. */
  lemma PathOfUrl(segments: seq<string>)
    ensures PathOf(Url(segments)) == Some(Path(segments))
  {
    UnescapeUrl(segments);
    Utf8.DecodeEncode(Path(segments));
  }

  // ----- the multiplexer's cleaning

  /** http.ServeMux redirects a request unless its path is clean; a final slash may stay. */
  predicate IsClean(url: string) {
    var np := Clean(if Rooted(url) then url else "/" + url);
    url == if HasSuffix(url, "/") && np != "/" then np + "/" else np
  }

  ghost predicate CleanSegments(segments: seq<string>) {
    forall i :: 0 <= i < |segments| ==>
      segments[i] !in ["", ".", ".."] || (segments[i] == "" && i == |segments| - 1)
  }

  lemma {:induction false} PathJoin(cs: seq<string>)
    requires cs != []
    ensures Path(cs) == "/" + Join(cs, '/')
  {
    if |cs| > 1 {
      PathJoin(cs[1..]);
    } else {
      assert Path(cs[1..]) == "";
    }
  }

  lemma UrlPieces(cs: seq<string>)
    requires cs != [] && forall c :: c in cs ==> '/' !in c
    ensures Rooted(Path(cs)) && Split(Path(cs), '/') == [""] + cs
  {
    PathJoin(cs);
    SplitJoin(cs, '/');
    SplitConcat("", Join(cs, '/'), '/');
    assert Path(cs) == "" + (['/'] + Join(cs, '/'));
    assert Split("", '/') == [""];
  }

  /** Whether `cs` are elements that cleaning keeps, with at most an empty one at the end. */
  ghost predicate Kept(cs: seq<string>) {
    forall i :: 0 <= i < |cs| ==> Ordinary(cs[i]) || (cs[i] == "" && i == |cs| - 1)
  }

  lemma ReduceEmpty(cs: seq<string>, done: seq<string>)
    ensures Reduce(true, [""] + cs, done) == Reduce(true, cs, done)
  {
    assert ([""] + cs)[1..] == cs;
  }

  lemma ReduceNone(done: seq<string>)
    ensures Reduce(true, [], done) == done
  {
  }

  lemma KeptElements(cs: seq<string>)
    requires |cs| > 1 && Kept(cs)
    ensures var es := if cs[|cs| - 1] == "" then cs[..|cs| - 1] else cs;
            Reduce(true, [""] + cs, []) == es
  {
    hide Reduce, Kept, Normal;
    KeptNormal(cs);
    var n := |cs| - 1;
    var es := if cs[n] == "" then cs[..n] else cs;
    ReduceEmpty(cs, []);
    assert [] + es == es;
    ReduceAppends(true, es, []);
    if cs[n] == "" {
      assert cs == cs[..n] + [""];
      ReduceAppend(true, cs[..n], [""], []);
      ReduceEmpty([], es);
      assert [""] + [] == [""];
      ReduceNone(es);
    }
  }

  lemma KeptNormal(cs: seq<string>)
    requires |cs| > 1 && Kept(cs)
    ensures Normal(true, if cs[|cs| - 1] == "" then cs[..|cs| - 1] else cs)
  {
    hide Ordinary;
  }

  lemma {:induction false} PathLast(cs: seq<string>, c: string)
    ensures Path(cs + [c]) == Path(cs) + ("/" + c)
  {
    if cs == [] {
      assert cs + [c] == [c] && [c][1..] == [];
      assert Path([c]) == "/" + c + "";
    } else {
      PathLast(cs[1..], c);
      assert (cs + [c])[1..] == cs[1..] + [c];
      assert "/" + cs[0] + (Path(cs[1..]) + ("/" + c)) == ("/" + cs[0] + Path(cs[1..])) + ("/" + c);
    }
  }

  lemma KeptIsClean(cs: seq<string>)
    requires |cs| > 1 && Kept(cs) && forall c :: c in cs ==> '/' !in c
    ensures IsClean(Path(cs))
  {
    UrlPieces(cs);
    KeptElements(cs);
    LastChar(cs);
    var n := |cs| - 1;
    var es := if cs[n] == "" then cs[..n] else cs;
    assert Ordinary(es[0]);
    CleanOf(Path(cs), es);
    if cs[n] == "" {
      EmptyLast(cs);
    }
    hide Kept, HasSuffix, Path, Clean, Rooted, Elements;
  }

  lemma EmptyLast(cs: seq<string>)
    requires cs != [] && cs[|cs| - 1] == ""
    ensures Path(cs) == Path(cs[..|cs| - 1]) + "/"
  {
    var n := |cs| - 1;
    assert cs == cs[..n] + [""];
    PathLast(cs[..n], "");
    hide Path;
    assert "/" + "" == "/";
  }

  lemma CleanOf(p: string, es: seq<string>)
    requires es != [] && Rooted(p) && Elements(p) == es
    ensures Clean(p) == Path(es)
  {
    PathJoin(es);
  }

  lemma SlashAtEnd(p: string, c: string)
    requires '/' !in c
    ensures HasSuffix(p + ("/" + c), "/") <==> c == ""
  {
    var s := p + ("/" + c);
    assert s[|s| - 1..] == [s[|s| - 1]];
    if c != "" {
      assert s[|s| - 1] == c[|c| - 1];
    }
  }

  lemma LastChar(cs: seq<string>)
    requires |cs| > 1 && '/' !in cs[|cs| - 1]
    ensures HasSuffix(Path(cs), "/") <==> cs[|cs| - 1] == ""
  {
    hide Path, HasSuffix;
    var n := |cs| - 1;
    PathLast(cs[..n], cs[n]);
    assert cs == cs[..n] + [cs[n]];
    SlashAtEnd(Path(cs[..n]), cs[n]);
  }

  lemma SplitEmpty()
    ensures Split("", '/') == [""]
  {
  }

  lemma CleanIsKept(cs: seq<string>)
    requires |cs| > 1 && cs[0] != "" && IsClean(Path(cs)) && forall c :: c in cs ==> '/' !in c
    ensures Kept(cs)
  {
    hide Path, Split, Elements, HasSuffix;
    UrlPieces(cs);
    var p := Path(cs);
    var es := Elements(p);
    ElementsNormal(p);
    SplitClean(p);
    SplitEmpty();
    assert cs == ([""] + cs)[1..];
    if p != Clean(p) {
      SplitConcat(Clean(p), "", '/');
      assert p == Clean(p) + (['/'] + "");
      assert [""] + cs == Split(Clean(p), '/') + [""];
    }
  }

  /** The multiplexer passes a URL on exactly when no segment is a dot segment and only the last may be empty. */
  lemma CleanUrl(segments: seq<string>)
    requires |segments| > 1 && segments[0] != ""
    ensures IsClean(Url(segments)) <==> CleanSegments(segments)
  {
    var cs := Components(segments);
    forall i | 0 <= i < |cs|
      ensures Ordinary(cs[i]) <==> segments[i] !in ["", ".", ".."]
      ensures cs[i] == "" <==> segments[i] == ""
      ensures '/' !in cs[i]
    {
      OrdinaryComponent(segments[i]);
    }
    hide IsClean, Path, Component, Ordinary;
    if IsClean(Url(segments)) {
      CleanIsKept(cs);
    }
    if CleanSegments(segments) {
      KeptIsClean(cs);
    }
  }
}
