/** The tunnel specifications of the command line: parsing them and printing them back. */
module TunnelSpecs {
  import opened Common
  import opened GoStrings

  datatype Tunnel = Tunnel(name: string, local: string, tag: string, remotePort: int, subdomain: string)

  datatype Problem = TooShort(spec: string) | BadPort(spec: string)

  /** Four or five fields, the fourth of them `tcp`. */
  predicate IsTcp(parts: seq<string>) {
    (|parts| == 4 || |parts| == 5) && parts[3] == "tcp"
  }

  /** What one specification stands for. */
  function ParseOne(spec: string): Result<Tunnel, Problem> {
    var parts := Split(spec, ':');
    if |parts| < 3 then Err(TooShort(spec))
    else if !IsTcp(parts) then Ok(Tunnel(parts[0], Join(parts[1..], ':'), "http", 0, parts[0]))
    else
      var local := parts[1] + ":" + parts[2];
      if |parts| == 4 then Ok(Tunnel(parts[0], local, "tcp", 0, ""))
      else match Atoi(parts[4])
        case Some(port) => Ok(Tunnel(parts[0], local, "tcp", port, ""))
        case None => Err(BadPort(spec))
  }

  /** All or nothing: the tunnels in the order of the specifications, or the problem of the first bad one. */
  method ParseTunnelSpecs(specs: seq<string>) returns (r: Result<seq<Tunnel>, Problem>)
    ensures r.Ok? <==> forall i :: 0 <= i < |specs| ==> ParseOne(specs[i]).Ok?
    ensures r.Ok? ==> |r.value| == |specs| && forall i :: 0 <= i < |specs| ==> ParseOne(specs[i]) == Ok(r.value[i])
    ensures r.Err? ==> exists i :: 0 <= i < |specs| && ParseOne(specs[i]) == Err(r.error) &&
                                   forall j :: 0 <= j < i ==> ParseOne(specs[j]).Ok?
  {
    var tunnels: seq<Tunnel> := [];
    var i := 0;
    while i < |specs|
      invariant 0 <= i <= |specs| && |tunnels| == i
      invariant forall j :: 0 <= j < i ==> ParseOne(specs[j]) == Ok(tunnels[j])
    {
      var spec := specs[i];
      var parts := Split(spec, ':');
      if |parts| < 3 {
        assert ParseOne(spec) == Err(TooShort(spec));
        return Err(TooShort(spec));
      }
      var name := parts[0];
      if (|parts| == 4 || |parts| == 5) && parts[3] == "tcp" {
        var localAddr := parts[1] + ":" + parts[2];
        var remotePort := 0;
        if |parts| == 5 {
          var port := Atoi(parts[4]);
          if port.None? {
            assert ParseOne(spec) == Err(BadPort(spec));
            return Err(BadPort(spec));
          }
          remotePort := port.value;
        }
        tunnels := tunnels + [Tunnel(name, localAddr, "tcp", remotePort, "")];
      } else {
        var localAddr := Join(parts[1..], ':');
        tunnels := tunnels + [Tunnel(name, localAddr, "http", 0, name)];
      }
      i := i + 1;
    }
    return Ok(tunnels);
  }

  // ----- printing

  /** The specification of a tunnel; the port is written when it is not zero. */
  function Print(t: Tunnel): string {
    var front := t.name + ":" + t.local;
    if t.tag != "tcp" then front
    else if t.remotePort == 0 then front + ":tcp"
    else front + ":tcp:" + Itoa(t.remotePort)
  }

  /** The first three fields, `name:host:port`. */
  function Front(p: seq<string>): string
    requires |p| >= 3
  {
    p[0] + ":" + (p[1] + ":" + p[2])
  }

  lemma JoinThree(a: string, b: string, c: string)
    ensures Join([a, b, c], ':') == Front([a, b, c])
  {
    assert [a, b, c][1..] == [b, c] && [b, c][1..] == [c];
    assert Join([b, c], ':') == b + ":" + c;
  }

  lemma JoinFields(p: seq<string>)
    requires 4 <= |p| <= 5
    ensures |p| == 4 ==> Join(p, ':') == Front(p) + (":" + p[3])
    ensures |p| == 5 ==> Join(p, ':') == Front(p) + (":" + p[3]) + (":" + p[4])
  {
    hide Join;
    JoinThree(p[0], p[1], p[2]);
    JoinLast(p[..3], p[3], ':');
    assert p[..3] == [p[0], p[1], p[2]] && p[..4] == p[..3] + [p[3]];
    if |p| == 4 {
      assert p == p[..4];
    } else {
      JoinLast(p[..4], p[4], ':');
      assert p == p[..4] + [p[4]];
    }
  }

  lemma ByFields(spec: string)
    ensures var parts, r := Split(spec, ':'), ParseOne(spec);
            && (r.Ok? <==> |parts| >= 3 && (IsTcp(parts) && |parts| == 5 ==> Atoi(parts[4]).Some?))
            && (r.Ok? ==> (r.value.tag == "tcp" <==> IsTcp(parts)) && (r.value.tag == "http" <==> !IsTcp(parts)))
  {
    hide Split, Atoi, Join;
    assert "tcp"[0] != "http"[0];
  }

  // ----- what is accepted, said of the text alone

  predicate ColonFree(a: string, b: string, c: string) {
    ':' !in a && ':' !in b && ':' !in c
  }

  /** `name:host:port:tcp` */
  ghost predicate TcpPlain(spec: string) {
    exists a, b, c :: ColonFree(a, b, c) && spec == Front([a, b, c]) + ":tcp"
  }

  /** `name:host:port:tcp:n` */
  ghost predicate TcpAt(spec: string, n: string) {
    ':' !in n && exists a, b, c :: ColonFree(a, b, c) && spec == Front([a, b, c]) + ":tcp" + (":" + n)
  }

  lemma {:induction false} SplitCount(s: string, c: char)
    ensures |Split(s, c)| == multiset(s)[c] + 1
    decreases |s|
  {
    hide IndexOf;
    var k := IndexOf(s, c);
    if k >= 0 {
      SplitCount(s[k + 1..], c);
      assert s == s[..k] + [c] + s[k + 1..];
      assert c !in s[..k];
    }
  }

  lemma FieldsOfPlain(spec: string, a: string, b: string, c: string)
    requires ColonFree(a, b, c) && spec == Front([a, b, c]) + ":tcp"
    ensures Split(spec, ':') == [a, b, c, "tcp"]
  {
    hide Split, Join;
    var p := [a, b, c, "tcp"];
    JoinFields(p);
    SplitJoin(p, ':');
    assert ":" + "tcp" == ":tcp";
  }

  lemma FieldsOfPort(spec: string, a: string, b: string, c: string, n: string)
    requires ColonFree(a, b, c) && ':' !in n && spec == Front([a, b, c]) + ":tcp" + (":" + n)
    ensures Split(spec, ':') == [a, b, c, "tcp", n]
  {
    hide Split, Join;
    var p := [a, b, c, "tcp", n];
    JoinFields(p);
    SplitJoin(p, ':');
    assert ":" + "tcp" == ":tcp";
  }

  lemma TextOfFields(spec: string)
    requires IsTcp(Split(spec, ':'))
    ensures |Split(spec, ':')| == 4 ==> TcpPlain(spec)
    ensures |Split(spec, ':')| == 5 ==> TcpAt(spec, Split(spec, ':')[4])
  {
    var p := Split(spec, ':');
    JoinSplit(spec, ':');
    JoinFields(p);
    hide Split, Join;
    assert ":" + "tcp" == ":tcp";
    assert Front(p) == Front([p[0], p[1], p[2]]);
    assert ColonFree(p[0], p[1], p[2]);
  }

  lemma TcpText(spec: string)
    ensures IsTcp(Split(spec, ':')) && |Split(spec, ':')| == 4 <==> TcpPlain(spec)
    ensures forall n :: TcpAt(spec, n) <==> IsTcp(Split(spec, ':')) && |Split(spec, ':')| == 5 && Split(spec, ':')[4] == n
  {
    hide Split, Front;
    if IsTcp(Split(spec, ':')) {
      TextOfFields(spec);
    }
    if TcpPlain(spec) {
      var a, b, c :| ColonFree(a, b, c) && spec == Front([a, b, c]) + ":tcp";
      FieldsOfPlain(spec, a, b, c);
    }
    forall n | TcpAt(spec, n)
      ensures IsTcp(Split(spec, ':')) && |Split(spec, ':')| == 5 && Split(spec, ':')[4] == n
    {
      var a, b, c :| ColonFree(a, b, c) && spec == Front([a, b, c]) + ":tcp" + (":" + n);
      FieldsOfPort(spec, a, b, c, n);
    }
  }

  /**
    A specification is accepted as TCP exactly when it reads `name:host:port:tcp`, or that with a proper
    port behind; as HTTP exactly when it has two colons or more and neither of these forms.
  */
  lemma AcceptedExactly(spec: string)
    ensures ParseOne(spec).Ok? && ParseOne(spec).value.tag == "tcp" <==>
            TcpPlain(spec) || exists n :: TcpAt(spec, n) && Atoi(n).Some?
    ensures ParseOne(spec).Ok? && ParseOne(spec).value.tag == "http" <==>
            multiset(spec)[':'] >= 2 && !TcpPlain(spec) && forall n :: !TcpAt(spec, n)
  {
    hide Split, Atoi, ParseOne, TcpPlain, TcpAt;
    ByFields(spec);
    SplitCount(spec, ':');
    TcpText(spec);
    var parts := Split(spec, ':');
    assert |parts| == 5 && IsTcp(parts) ==> TcpAt(spec, parts[4]);
  }

  /** An accepted HTTP specification is its name, a colon and its local address, with all their characters. */
  lemma HttpPrintsBack(spec: string)
    requires ParseOne(spec).Ok? && ParseOne(spec).value.tag == "http"
    ensures var t := ParseOne(spec).value;
            t.subdomain == t.name && ':' !in t.name && spec == t.name + ":" + t.local && spec == Print(t)
  {
    ByFields(spec);
    var parts := Split(spec, ':');
    JoinSplit(spec, ':');
    assert parts[0] in parts;
  }

  /** The fields of an accepted TCP specification, and the whole of it from them. */
  lemma TcpFields(spec: string)
    requires ParseOne(spec).Ok? && ParseOne(spec).value.tag == "tcp"
    ensures var t, parts := ParseOne(spec).value, Split(spec, ':');
            && IsTcp(parts) && (forall p :: p in parts ==> ':' !in p)
            && t.name == parts[0] && t.local == parts[1] + ":" + parts[2] && t.subdomain == ""
            && (if |parts| == 4 then t.remotePort == 0 && spec == Front(parts) + ":tcp"
                else Atoi(parts[4]) == Some(t.remotePort) && spec == Front(parts) + ":tcp" + (":" + parts[4]))
  {
    ByFields(spec);
    JoinSplit(spec, ':');
    JoinFields(Split(spec, ':'));
    hide Split, Join, Atoi, Front;
    assert ":" + "tcp" == ":tcp";
  }

  lemma PrintTcp(t: Tunnel, parts: seq<string>)
    requires |parts| >= 3 && t.tag == "tcp" && t.name == parts[0] && t.local == parts[1] + ":" + parts[2]
    ensures Print(t) == Front(parts) + ":tcp" + if t.remotePort == 0 then "" else ":" + Itoa(t.remotePort)
  {
    var front, numeral := Front(parts) + ":tcp", Itoa(t.remotePort);
    hide Itoa;
    assert front + "" == front;
    assert front + (":" + numeral) == Front(parts) + (":tcp" + (":" + numeral));
    assert ":tcp" + (":" + numeral) == ":tcp:" + numeral;
    assert Front(parts) + (":tcp:" + numeral) == Front(parts) + ":tcp:" + numeral;
  }

  /** A port behind `tcp` is a canonical numeral: no plus sign, no leading zero, not zero. */
  ghost predicate Plain(spec: string) {
    forall n :: TcpAt(spec, n) ==> Canonical(n)
  }

  /** Printing undoes parsing exactly for the plain specifications. */
  lemma PrintUndoesParse(spec: string)
    requires ParseOne(spec).Ok?
    ensures Print(ParseOne(spec).value) == spec <==> Plain(spec)
  {
    hide Split, Join, Atoi, Front, Itoa, ParseOne, Print, TcpAt, Canonical;
    ByFields(spec);
    TcpText(spec);
    var t, parts := ParseOne(spec).value, Split(spec, ':');
    if t.tag == "http" {
      HttpPrintsBack(spec);
    } else {
      TcpFields(spec);
      PrintTcp(t, parts);
      var front := Front(parts) + ":tcp";
      if |parts| == 5 {
        SameEnd(front, parts[4], Itoa(t.remotePort));
        CanonicalPrintsBack(parts[4]);
        assert TcpAt(spec, parts[4]);
      } else {
        assert front + "" == front;
      }
    }
  }

  /** For example: leading zeros are accepted and lost. */
  lemma LeadingZerosLost(a: string, b: string, c: string)
    requires ColonFree(a, b, c)
    ensures var spec := Front([a, b, c]) + ":tcp" + (":" + "007");
            && ParseOne(spec) == Ok(Tunnel(a, b + ":" + c, "tcp", 7, ""))
            && Print(ParseOne(spec).value) != spec
  {
    hide Split, Join, Atoi, Front, Print;
    var spec := Front([a, b, c]) + ":tcp" + (":" + "007");
    FieldsOfPort(spec, a, b, c, "007");
    SevenReads();
    PrintUndoesParse(spec);
    assert TcpAt(spec, "007") && !Canonical("007");
  }

  lemma SevenReads()
    ensures Atoi("007") == Some(7)
  {
    ValueAppend("", '0');
    ValueAppend("0", '0');
    ValueAppend("00", '7');
    assert "" + "0" == "0" && "0" + "0" == "00" && "00" + "7" == "007";
    AtoiReads("007", false);
  }

  lemma SameEnd(front: string, a: string, b: string)
    ensures front + (":" + a) != front + ""
    ensures front + (":" + a) == front + (":" + b) <==> a == b
  {
    assert (front + (":" + a))[|front| + 1..] == a && (front + (":" + b))[|front| + 1..] == b;
    assert |front + (":" + a)| > |front + ""|;
  }

  /** Parsing undoes printing, for whatever parsing has once accepted. */
  lemma ParseUndoesPrint(spec: string)
    requires ParseOne(spec).Ok?
    ensures var t := ParseOne(spec).value; ParseOne(Print(t)) == Ok(t)
  {
    ByFields(spec);
    var t, parts := ParseOne(spec).value, Split(spec, ':');
    if t.tag == "http" {
      HttpPrintsBack(spec);
    } else {
      TcpFields(spec);
      PrintTcp(t, parts);
      TcpReparse(t, parts);
    }
  }

  lemma TcpReparse(t: Tunnel, parts: seq<string>)
    requires |parts| >= 3 && t == Tunnel(parts[0], parts[1] + ":" + parts[2], "tcp", t.remotePort, "")
    requires (forall p :: p in parts ==> ':' !in p) && -MAX_INT - 1 <= t.remotePort <= MAX_INT
    ensures ParseOne(Print(t)) == Ok(t)
  {
    hide Split, Join, Atoi, Itoa, Print;
    assert parts[0] in parts && parts[1] in parts && parts[2] in parts;
    AtoiItoa(t.remotePort);
    PrintTcp(t, parts);
    if t.remotePort == 0 {
      FieldsOfPlain(Print(t), parts[0], parts[1], parts[2]);
    } else {
      FieldsOfPort(Print(t), parts[0], parts[1], parts[2], Itoa(t.remotePort));
    }
  }
}
