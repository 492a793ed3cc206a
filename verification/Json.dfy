/**
  The stream header as JSON text: what Go's encoder prints for the two-field struct, and a decoder for
  objects of string members. Strings and their escapes follow section 7 of RFC 8259.
*/
module Json {
  import opened Common

  // ----- strings, printed

  const HEX := "0123456789abcdef"

  function Hex4(n: nat): string
    requires n < 0x1_0000
  {
    [HEX[n / 4096], HEX[n / 256 % 16], HEX[n / 16 % 16], HEX[n % 16]]
  }

  /** The encoder also escapes what HTML would interpret, and the two line separators. */
  predicate Hidden(c: char) {
    c < ' ' || c in "<>&" || c == '\U{2028}' || c == '\U{2029}'
  }

  function EscapeChar(c: char): (e: string)
    ensures e != "" && forall d :: d in e ==> d >= ' '
  {
    match c
    case '\"' => "\\\""
    case '\\' => "\\\\"
    case '\n' => "\\n"
    case '\r' => "\\r"
    case '\t' => "\\t"
    case '\U{8}' => "\\b"
    case '\U{c}' => "\\f"
    case _ => if Hidden(c) then "\\u" + Hex4(c as int) else [c]
  }

  function Escape(s: string): string {
    if s == "" then "" else EscapeChar(s[0]) + Escape(s[1..])
  }

  function Quote(s: string): string {
    "\"" + Escape(s) + "\""
  }

  // ----- strings, read

  function HexDigit(c: char): Option<nat> {
    if '0' <= c <= '9' then Some(c as int - '0' as int)
    else if 'a' <= c <= 'f' then Some(c as int - 'a' as int + 10)
    else if 'A' <= c <= 'F' then Some(c as int - 'A' as int + 10)
    else None
  }

  function ReadHex4(s: string): (r: Option<nat>)
    ensures r.Some? ==> |s| >= 4 && r.value < 0x1_0000
  {
    if |s| < 4 then None else
      match (HexDigit(s[0]), HexDigit(s[1]), HexDigit(s[2]), HexDigit(s[3]))
      case (Some(a), Some(b), Some(c), Some(d)) =>
        if a < 16 && b < 16 && c < 16 && d < 16 then Some(4096 * a + 256 * b + 16 * c + d) else None
      case _ => None
  }

  const REPLACEMENT := '\U{FFFD}'

  /** What follows `\u`: four digits, or two such groups for a character beyond 16 bits. */
  function ReadUnicode(s: string): (r: Option<(char, nat)>)
    ensures r.Some? ==> 0 < r.value.1 <= |s|
  {
    match ReadHex4(s)
    case None => None
    case Some(n) =>
      if !(0xD800 <= n < 0xE000) then Some((n as char, 4))
      else if n < 0xDC00 && |s| >= 10 && s[4] == '\\' && s[5] == 'u' then
        match ReadHex4(s[6..])
        case Some(m) =>
          if 0xDC00 <= m < 0xE000 then Some((((n - 0xD800) * 1024 + (m - 0xDC00) + 0x1_0000) as char, 10))
          else Some((REPLACEMENT, 4))
        case None => Some((REPLACEMENT, 4))
      else Some((REPLACEMENT, 4))
  }

  /** What follows a backslash: the character it stands for, and how long it is. */
  function ReadEscape(s: string): (r: Option<(char, nat)>)
    ensures r.Some? ==> 0 < r.value.1 <= |s|
  {
    if s == "" then None else
      match s[0]
      case '\"' => Some(('\"', 1))
      case '\\' => Some(('\\', 1))
      case '/' => Some(('/', 1))
      case 'b' => Some(('\U{8}', 1))
      case 'f' => Some(('\U{c}', 1))
      case 'n' => Some(('\n', 1))
      case 'r' => Some(('\r', 1))
      case 't' => Some(('\t', 1))
      case 'u' =>
        (match ReadUnicode(s[1..])
         case Some((c, width)) => Some((c, width + 1))
         case None => None)
      case _ => None
  }

  /** The rest of a string after its opening quote, and what follows the closing one. */
  function ReadString(s: string): (r: Option<(string, string)>)
    ensures r.Some? ==> |r.value.1| < |s|
    decreases |s|
  {
    if s == "" || s[0] < ' ' then None
    else if s[0] == '\"' then Some(("", s[1..]))
    else
      var step := if s[0] == '\\' then ReadEscape(s[1..]) else Some((s[0], 0));
      match step
      case None => None
      case Some((c, width)) =>
        match ReadString(s[width + 1..])
        case None => None
        case Some((text, rest)) => Some(([c] + text, rest))
  }

  lemma HexBack(n: nat)
    requires n < 16
    ensures HexDigit(HEX[n]) == Some(n)
  {
  }

  lemma HexDigits(n: nat)
    requires n < 0x1_0000
    ensures n == 4096 * (n / 4096) + 256 * (n / 256 % 16) + 16 * (n / 16 % 16) + n % 16
  {
    assert n / 16 / 16 == n / 256 && n / 256 / 16 == n / 4096;
  }

  lemma DigitsRead(a: nat, b: nat, c: nat, d: nat, s: string)
    requires a < 16 && b < 16 && c < 16 && d < 16
    requires |s| >= 4 && s[0] == HEX[a] && s[1] == HEX[b] && s[2] == HEX[c] && s[3] == HEX[d]
    ensures ReadHex4(s) == Some(4096 * a + 256 * b + 16 * c + d)
  {
    HexBack(a);
    HexBack(b);
    HexBack(c);
    HexBack(d);
    hide HexDigit;
  }

  lemma Hex4Back(n: nat, rest: string)
    requires n < 0x1_0000
    ensures ReadHex4(Hex4(n) + rest) == Some(n)
  {
    hide ReadHex4;
    DigitsRead(n / 4096, n / 256 % 16, n / 16 % 16, n % 16, Hex4(n) + rest);
    HexDigits(n);
  }

  lemma EscapeReads(c: char, rest: string)
    ensures EscapeChar(c)[0] == '\\' ==> ReadEscape(EscapeChar(c)[1..] + rest) == Some((c, |EscapeChar(c)| - 1))
    ensures EscapeChar(c)[0] != '\\' ==> EscapeChar(c) == [c] && c >= ' ' && c != '\"'
  {
    if Hidden(c) && |EscapeChar(c)| == 6 {
      UnicodeReads(c, rest);
    }
  }

  lemma UnicodeReads(c: char, rest: string)
    requires c as int < 0x1_0000
    ensures ReadEscape(("\\u" + Hex4(c as int))[1..] + rest) == Some((c, 5))
  {
    var n := c as int;
    Hex4Back(n, rest);
    var s := ("\\u" + Hex4(n))[1..] + rest;
    assert s == ['u'] + (Hex4(n) + rest);
    assert s[0] == 'u' && s[1..] == Hex4(n) + rest;
    hide Hex4, ReadHex4;
  }

  lemma ReadsOne(c: char, t: string, tail: string)
    requires t == EscapeChar(c) + tail && ReadString(tail).Some?
    ensures ReadString(t) == Some(([c] + ReadString(tail).value.0, ReadString(tail).value.1))
  {
    var e := EscapeChar(c);
    EscapeReads(c, tail);
    hide EscapeChar, ReadEscape;
    assert t[0] == e[0] && t[1..] == e[1..] + tail && t[|e|..] == tail;
  }

  lemma {:induction false} QuoteReads(s: string, rest: string)
    ensures ReadString(Escape(s) + "\"" + rest) == Some((s, rest))
  {
    var t := Escape(s) + "\"" + rest;
    hide EscapeChar, ReadEscape;
    if s == "" {
      assert t == "\"" + rest;
      assert t[1..] == rest;
    } else {
      var tail := Escape(s[1..]) + "\"" + rest;
      QuoteReads(s[1..], rest);
      assert t == EscapeChar(s[0]) + tail;
      hide ReadString;
      ReadsOne(s[0], t, tail);
      assert [s[0]] + s[1..] == s;
    }
  }

  lemma {:induction false} EscapePrintable(s: string)
    ensures forall c :: c in Quote(s) ==> c >= ' '
  {
    if s != "" {
      EscapePrintable(s[1..]);
      assert forall c :: c in Escape(s[1..]) ==> c in Quote(s[1..]);
    }
  }

  // ----- the header

  datatype Header = Header(tunnelName: string, localAddr: string)

  const NAME := "tunnel_name"
  const ADDR := "local_addr"

  function Member(key: string, value: string): string {
    Quote(key) + ":" + Quote(value)
  }

  function Print(h: Header): string {
    "{" + Member(NAME, h.tunnelName) + "," + Member(ADDR, h.localAddr) + "}"
  }

  function SkipSpace(s: string): (t: string)
    ensures |t| <= |s|
    ensures t != "" ==> t[0] !in " \t\r\n"
    ensures s != "" && s[0] !in " \t\r\n" ==> t == s
  {
    if s != "" && s[0] in " \t\r\n" then SkipSpace(s[1..]) else s
  }

  /** What stands after this character and the white space before it. */
  function Expect(s: string, c: char): (r: Option<string>)
    ensures r.Some? ==> |r.value| < |s|
  {
    var t := SkipSpace(s);
    if t != "" && t[0] == c then Some(t[1..]) else None
  }

  function ReadQuoted(s: string): (r: Option<(string, string)>)
    ensures r.Some? ==> |r.value.1| < |s|
  {
    match Expect(s, '\"')
    case None => None
    case Some(t) => ReadString(t)
  }

  function Set(h: Header, key: string, value: string): Header {
    if key == NAME then h.(tunnelName := value) else if key == ADDR then h.(localAddr := value) else h
  }

  /** One member of the object and what follows it. */
  function ReadMember(s: string, h: Header): (r: Option<(Header, string)>)
    ensures r.Some? ==> |r.value.1| < |s|
  {
    match ReadQuoted(s)
    case None => None
    case Some((key, s1)) =>
      match Expect(s1, ':')
      case None => None
      case Some(s2) =>
        match ReadQuoted(s2)
        case None => None
        case Some((value, s3)) => Some((Set(h, key, value), s3))
  }

  /** The members of an object and nothing after its closing brace. Unknown members are passed over. */
  function ReadMembers(s: string, h: Header): Option<Header>
    decreases |s|
  {
    match ReadMember(s, h)
    case None => None
    case Some((g, t)) =>
      match Expect(t, ',')
      case Some(more) => ReadMembers(more, g)
      case None =>
        match Expect(t, '}')
        case Some(end) => if SkipSpace(end) == "" then Some(g) else None
        case None => None
  }

  function Parse(s: string): Option<Header> {
    match Expect(s, '{')
    case None => None
    case Some(t) =>
      match Expect(t, '}')
      case Some(end) => if SkipSpace(end) == "" then Some(Header("", "")) else None
      case None => ReadMembers(t, Header("", ""))
  }

  lemma QuotedReads(text: string, s: string, rest: string)
    requires s == Quote(text) + rest
    ensures ReadQuoted(s) == Some((text, rest))
  {
    hide ReadString, Escape;
    QuoteReads(text, rest);
    assert s[0] == '\"' && s[1..] == Escape(text) + "\"" + rest;
  }

  lemma MemberReads(h: Header, key: string, value: string, rest: string)
    ensures ReadMember(Member(key, value) + rest, h) == Some((Set(h, key, value), rest))
  {
    hide ReadQuoted, Quote, Set;
    var s2 := Quote(value) + rest;
    var s1 := ":" + s2;
    var s := Quote(key) + s1;
    assert Member(key, value) + rest == s;
    QuotedReads(key, s, s1);
    assert s1[0] == ':' && s1[1..] == s2;
    QuotedReads(value, s2, rest);
  }

  lemma LastMember(key: string, value: string, h: Header)
    ensures ReadMembers(Member(key, value) + "}\n", h) == Some(Set(h, key, value))
  {
    hide ReadMember, Member, Set;
    var end := "}\n";
    MemberReads(h, key, value, end);
    assert end[0] == '}' && end[1..] == "\n";
    assert "\n"[1..] == "";
    assert SkipSpace("\n") == SkipSpace("");
  }

  lemma FirstMember(key: string, value: string, more: string, h: Header)
    ensures ReadMembers(Member(key, value) + ("," + more), h) == ReadMembers(more, Set(h, key, value))
  {
    hide ReadMember, Member, Set;
    var t := "," + more;
    MemberReads(h, key, value, t);
    assert t[0] == ',' && t[1..] == more;
  }

  lemma MembersOpen(key: string, value: string, rest: string)
    ensures Parse("{" + (Member(key, value) + rest)) == ReadMembers(Member(key, value) + rest, Header("", ""))
  {
    hide ReadMembers, Escape;
    var t := Member(key, value) + rest;
    assert t[0] == '\"';
    assert ("{" + t)[1..] == t;
  }

  /** The decoder undoes the encoder, for every name and address, with the line's end behind. */
  lemma ParsePrint(h: Header)
    ensures Parse(Print(h) + "\n") == Some(h)
  {
    hide Parse, ReadMembers, Member;
    var second := Member(ADDR, h.localAddr) + "}\n";
    assert Print(h) + "\n" == "{" + (Member(NAME, h.tunnelName) + ("," + second));
    MembersOpen(NAME, h.tunnelName, "," + second);
    FirstMember(NAME, h.tunnelName, second, Header("", ""));
    LastMember(ADDR, h.localAddr, Header(h.tunnelName, ""));
  }

  lemma MemberPrintable(key: string, value: string)
    ensures forall c :: c in Member(key, value) ==> c >= ' '
  {
    EscapePrintable(key);
    EscapePrintable(value);
    hide Quote;
  }

  lemma PrintOneLine(h: Header)
    ensures '\n' !in Print(h)
  {
    MemberPrintable(NAME, h.tunnelName);
    MemberPrintable(ADDR, h.localAddr);
    hide Member;
  }

  // ----- what is printed, said of the text

  /** A character that stands for itself. */
  predicate Bare(c: char) {
    c >= ' ' && c !in "\"\\<>&" && c != '\U{2028}' && c != '\U{2029}'
  }

  lemma {:induction false} EscapeBare(s: string)
    requires forall c :: c in s ==> Bare(c)
    ensures Escape(s) == s
  {
    hide EscapeChar, Bare;
    if s != "" {
      assert s[0] in s && forall c :: c in s[1..] ==> c in s;
      BareChar(s[0]);
      EscapeBare(s[1..]);
    }
  }

  lemma BareChar(c: char)
    requires Bare(c)
    ensures EscapeChar(c) == [c]
  {
  }

  lemma BareKeys()
    ensures (forall c :: c in "tunnel_name" ==> Bare(c)) && forall c :: c in "local_addr" ==> Bare(c)
  {
  }

  /** The object has the members tunnel_name and local_addr, in this order. */
  lemma PrintedMembers(h: Header)
    ensures Print(h) == "{" + ("\"" + "tunnel_name" + "\":" + Quote(h.tunnelName)) + "," +
                        ("\"" + "local_addr" + "\":" + Quote(h.localAddr)) + "}"
  {
    hide Escape;
    BareKeys();
    EscapeBare(NAME);
    EscapeBare(ADDR);
    KeyText("tunnel_name", Quote(h.tunnelName));
    KeyText("local_addr", Quote(h.localAddr));
  }

  lemma KeyText(key: string, value: string)
    ensures "\"" + key + "\"" + ":" + value == "\"" + key + "\":" + value
  {
  }

  /** The short escapes. */
  lemma ShortEscapes()
    ensures EscapeChar('\"') == "\\\"" && EscapeChar('\\') == "\\\\"
    ensures EscapeChar('\n') == "\\n" && EscapeChar('\r') == "\\r" && EscapeChar('\t') == "\\t"
    ensures EscapeChar('\U{8}') == "\\b" && EscapeChar('\U{c}') == "\\f"
  {
  }

  /** What HTML would interpret, and the line separators, are printed by code point. */
  lemma LongEscapes(c: char)
    requires c in "<>&" || c == '\U{2028}' || c == '\U{2029}'
    ensures |EscapeChar(c)| == 6 && EscapeChar(c)[..2] == "\\u" && ReadHex4(EscapeChar(c)[2..]) == Some(c as int)
  {
    hide ReadHex4;
    Hex4Back(c as int, "");
    assert Hex4(c as int) + "" == Hex4(c as int);
    assert EscapeChar(c)[2..] == Hex4(c as int);
  }

  /** Two escapes that are a surrogate pair read as the one character beyond 16 bits that they stand for. */
  lemma SurrogatePairReads(c: char, rest: string)
    requires c as int >= 0x1_0000
    ensures var m := c as int - 0x1_0000;
            ReadUnicode(Hex4(0xD800 + m / 1024) + ("\\u" + (Hex4(0xDC00 + m % 1024) + rest))) == Some((c, 10))
  {
    hide Hex4, ReadHex4;
    var m := c as int - 0x1_0000;
    var high, low := 0xD800 + m / 1024, 0xDC00 + m % 1024;
    var tail := "\\u" + (Hex4(low) + rest);
    Hex4Back(high, tail);
    Hex4Back(low, rest);
    Hex4Length(high);
    var s := Hex4(high) + tail;
    assert s[4] == tail[0] && s[5] == tail[1] && s[6..] == tail[2..] == Hex4(low) + rest;
    assert |s| >= 10 by {
      Hex4Length(low);
    }
    assert m == m / 1024 * 1024 + m % 1024;
  }

  lemma Hex4Length(n: nat)
    requires n < 0x1_0000
    ensures |Hex4(n)| == 4
  {
  }
}
