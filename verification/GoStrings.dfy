/** The functions of Go's `strings` and `strconv` packages that the program calls, on lists of characters. */
module GoStrings {
  import opened Common

  predicate HasPrefix(s: string, p: string) {
    p <= s
  }

  predicate HasSuffix(s: string, t: string) {
    |t| <= |s| && s[|s| - |t|..] == t
  }

  function TrimPrefix(s: string, p: string): string {
    if HasPrefix(s, p) then s[|p|..] else s
  }

  function TrimSuffix(s: string, t: string): string {
    if HasSuffix(s, t) then s[..|s| - |t|] else s
  }

  predicate OccursAt(s: string, p: string, i: nat) {
    i + |p| <= |s| && s[i..i + |p|] == p
  }

  /** The first position at which p occurs in s, from position i on; -1 when there is none. */
  function IndexFrom(s: string, p: string, i: nat): (k: int)
    requires i <= |s|
    ensures k == -1 || (i <= k && OccursAt(s, p, k))
    ensures forall j: nat :: i <= j && (k == -1 || j < k) ==> !OccursAt(s, p, j)
    decreases |s| - i
  {
    if OccursAt(s, p, i) then i else if i == |s| then -1 else IndexFrom(s, p, i + 1)
  }

  function Index(s: string, p: string): int {
    IndexFrom(s, p, 0)
  }

  predicate Contains(s: string, p: string) {
    Index(s, p) >= 0
  }

  /** The last position of a character; -1 when it is absent. */
  function LastIndexOf(s: string, c: char): (k: int)
    ensures -1 <= k < |s|
    ensures k >= 0 ==> s[k] == c
    ensures forall j :: k < j < |s| ==> s[j] != c
  {
    if s == "" then -1 else if s[|s| - 1] == c then |s| - 1 else LastIndexOf(s[..|s| - 1], c)
  }

  function IndexOf(s: string, c: char): (k: int)
    ensures -1 <= k < |s|
    ensures k >= 0 ==> s[k] == c
    ensures forall j :: 0 <= j < |s| && (k == -1 || j < k) ==> s[j] != c
  {
    if s == "" then -1
    else if s[0] == c then 0
    else var k := IndexOf(s[1..], c); if k < 0 then -1 else k + 1
  }

  /** The pieces of s between the occurrences of a separator character. */
  function Split(s: string, c: char): (parts: seq<string>)
    ensures |parts| >= 1
    decreases |s|
  {
    var k := IndexOf(s, c);
    if k < 0 then [s] else [s[..k]] + Split(s[k + 1..], c)
  }

  function Join(parts: seq<string>, c: char): string {
    if parts == [] then "" else if |parts| == 1 then parts[0] else parts[0] + [c] + Join(parts[1..], c)
  }

  /** Splitting and joining undo each other; pieces are free of the separator. */
  lemma {:induction false} JoinSplit(s: string, c: char)
    ensures Join(Split(s, c), c) == s
    ensures forall p :: p in Split(s, c) ==> c !in p
    decreases |s|
  {
    hide IndexOf;
    var k := IndexOf(s, c);
    if k >= 0 {
      JoinSplit(s[k + 1..], c);
      assert s == s[..k] + [c] + s[k + 1..];
    }
  }

  lemma FirstAt(a: string, b: string, c: char)
    requires c !in a
    ensures IndexOf(a + ([c] + b), c) == |a|
  {
    hide IndexOf;
    var s := a + ([c] + b);
    assert s[|a|] == c;
    assert forall j :: 0 <= j < |a| ==> s[j] == a[j] && a[j] in a;
  }

  lemma SplitFirst(a: string, b: string, c: char)
    requires c !in a
    ensures Split(a + ([c] + b), c) == [a] + Split(b, c)
  {
    hide IndexOf;
    FirstAt(a, b, c);
    var s := a + ([c] + b);
    assert s[..|a|] == a && s[|a| + 1..] == b;
  }

  lemma {:induction false} SplitJoin(parts: seq<string>, c: char)
    requires parts != [] && forall p :: p in parts ==> c !in p
    ensures Split(Join(parts, c), c) == parts
  {
    hide IndexOf;
    assert parts[0] in parts;
    if |parts| == 1 {
      assert parts == [parts[0]];
    } else {
      SplitJoin(parts[1..], c);
      SplitFirst(parts[0], Join(parts[1..], c), c);
      ConcatAssociates(parts[0], [c], Join(parts[1..], c));
      hide Split;
    }
  }

  lemma {:induction false} JoinLast(parts: seq<string>, p: string, c: char)
    requires parts != []
    ensures Join(parts + [p], c) == Join(parts, c) + ([c] + p)
  {
    if |parts| == 1 {
      assert (parts + [p])[1..] == [p];
      assert parts[0] + [c] + p == parts[0] + ([c] + p);
    } else {
      JoinLast(parts[1..], p, c);
      assert (parts + [p])[1..] == parts[1..] + [p];
      ConcatAssociates(parts[0] + [c], Join(parts[1..], c), [c] + p);
    }
  }

  // ----- decimal numerals

  const DIGITS := "0123456789"

  function Digits(n: nat): (s: string)
    ensures s != "" && forall c :: c in s ==> c in DIGITS
  {
    if n < 10 then [DIGITS[n]] else Digits(n / 10) + [DIGITS[n % 10]]
  }

  function Itoa(n: int): (s: string)
    ensures ':' !in s
  {
    if n < 0 then "-" + Digits(-n) else Digits(n)
  }

  function DigitValue(c: char): (v: nat)
    requires c in DIGITS
    ensures v < 10 && DIGITS[v] == c
  {
    c as int - '0' as int
  }

  function Value(s: string): nat
    requires forall c :: c in s ==> c in DIGITS
  {
    if s == "" then 0 else 10 * Value(s[..|s| - 1]) + DigitValue(s[|s| - 1])
  }

  const MAX_INT := 0x7fff_ffff_ffff_ffff

  /** strconv.Atoi on a 64-bit machine: an optional sign, then digits, within range. */
  function Atoi(s: string): Option<int> {
    var neg := s != "" && s[0] == '-';
    var body := if s != "" && (s[0] == '-' || s[0] == '+') then s[1..] else s;
    if body == "" || exists c :: c in body && c !in DIGITS then None
    else
      var v := Value(body) as int;
      var n := if neg then 0 - v else v;
      if -MAX_INT - 1 <= n <= MAX_INT then Some(n) else None
  }

  lemma ValueAppend(s: string, c: char)
    requires c in DIGITS && forall d :: d in s ==> d in DIGITS
    ensures Value(s + [c]) == 10 * Value(s) + DigitValue(c)
  {
    assert (s + [c])[..|s|] == s;
  }

  lemma {:induction false} ValueDigits(n: nat)
    ensures Value(Digits(n)) == n
  {
    assert DigitValue(DIGITS[n % 10]) == n % 10;
    if n < 10 {
      ValueAppend("", DIGITS[n]);
      assert "" + [DIGITS[n]] == Digits(n);
    } else {
      ValueDigits(n / 10);
      ValueAppend(Digits(n / 10), DIGITS[n % 10]);
      hide Value, DigitValue;
    }
  }

  lemma AtoiReads(d: string, neg: bool)
    requires d != "" && forall c :: c in d ==> c in DIGITS
    ensures var n := if neg then 0 - Value(d) else Value(d);
            Atoi(if neg then "-" + d else d) == if -MAX_INT - 1 <= n <= MAX_INT then Some(n) else None
  {
    hide Value;
    assert d[0] in d;
    assert ("-" + d)[1..] == d;
  }

  lemma AtoiItoa(n: int)
    requires -MAX_INT - 1 <= n <= MAX_INT
    ensures Atoi(Itoa(n)) == Some(n)
  {
    var m := if n < 0 then -n else n;
    ValueDigits(m);
    AtoiReads(Digits(m), n < 0);
    hide Atoi, Digits, Value;
  }

  /** A numeral as Itoa writes it, of a number other than zero: perhaps a minus, then digits, the first not zero. */
  predicate Canonical(d: string) {
    var body := if d != "" && d[0] == '-' then d[1..] else d;
    body != "" && body[0] != '0' && forall c :: c in body ==> c in DIGITS
  }

  lemma {:induction false} FirstDigit(n: nat)
    ensures n > 0 ==> Digits(n)[0] != '0'
  {
    if n >= 10 {
      FirstDigit(n / 10);
    }
  }

  lemma {:induction false} DigitsValue(s: string)
    requires s != "" && s[0] != '0' && forall c :: c in s ==> c in DIGITS
    ensures Value(s) > 0 && Digits(Value(s)) == s
  {
    var n := |s| - 1;
    var front, last := s[..n], s[n];
    assert s == front + [last] && last in s && forall c :: c in front ==> c in s;
    ValueAppend(front, last);
    if n == 0 {
      assert s == [last] && front == "";
    } else {
      DigitsValue(front);
      assert Value(s) / 10 == Value(front) && Value(s) % 10 == DigitValue(last);
    }
  }

  lemma AtoiBody(d: string)
    requires Atoi(d).Some?
    ensures var neg := d[0] == '-';
            var body := if neg || d[0] == '+' then d[1..] else d;
            && d != "" && body != "" && (forall c :: c in body ==> c in DIGITS)
            && Atoi(d).value == if neg then 0 - Value(body) else Value(body)
  {
    hide Value;
  }

  lemma SignedPrintsBack(body: string, neg: bool)
    requires body != "" && forall c :: c in body ==> c in DIGITS
    ensures var n := if neg then 0 - Value(body) else Value(body);
            n != 0 && Itoa(n) == (if neg then "-" + body else body) <==> body[0] != '0'
  {
    hide Value, Digits;
    var m := Value(body);
    FirstDigit(m);
    if body[0] != '0' {
      DigitsValue(body);
    }
    assert ("-" + body)[1..] == body && ("-" + Digits(m))[1..] == Digits(m);
  }

  lemma PlusPrintsOtherwise(d: string, n: int)
    requires d != "" && d[0] == '+'
    ensures Itoa(n) != d
  {
    hide Digits;
    var m := if n < 0 then -n else n;
    assert Digits(m)[0] in Digits(m);
  }

  /** The numerals that Itoa gives back are the canonical ones. */
  lemma CanonicalPrintsBack(d: string)
    requires Atoi(d).Some?
    ensures Atoi(d).value != 0 && d == Itoa(Atoi(d).value) <==> Canonical(d)
  {
    hide Atoi, Value, Itoa;
    AtoiBody(d);
    if d[0] == '+' {
      PlusPrintsOtherwise(d, Atoi(d).value);
      assert d[0] in d && d[0] !in DIGITS;
    } else {
      var neg := d[0] == '-';
      var body := if neg then d[1..] else d;
      assert d == if neg then "-" + body else body;
      SignedPrintsBack(body, neg);
    }
  }
}
