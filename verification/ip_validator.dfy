/** The IPv4 check: the language of dotted quads the address pattern matches,
    four canonical decimal octets 0..255 separated by single dots. */
module IpValidator {
  import opened Wrappers
  import opened Digits

  /** The pieces of `s` between dots, empty pieces included. */
  function Split(s: string): (parts: seq<string>)
    ensures |parts| >= 1
  {
    if s == [] then [""]
    else
      var rest := Split(s[1..]);
      if s[0] == '.' then [""] + rest else [[s[0]] + rest[0]] + rest[1..]
  }

  /** Pieces joined with single dots. */
  function JoinDots(parts: seq<string>): string
    requires |parts| >= 1
  {
    if |parts| == 1 then parts[0] else parts[0] + "." + JoinDots(parts[1..])
  }

  /** One octet of the pattern: a numeral 0..255 with no leading zero, so "0" is
      accepted and "00", "01" and "256" are not. */
  predicate IsOctet(p: string)
  {
    && 1 <= |p| <= 3
    && AllDigits(p)
    && (|p| == 1 || p[0] != '0')
    && Value(p) <= 255
  }

  /** The strings the address pattern matches: exactly four pieces between dots,
      each an octet, so no empty piece, no leading or trailing dot, no fifth octet. */
  predicate Accepts(s: string)
  {
    var parts := Split(s);
    |parts| == 4 && forall i :: 0 <= i < 4 ==> IsOctet(parts[i])
  }

  /** `isNonValidIp`: the negation of the pattern match. An address is valid
      exactly when it is the dotted-decimal rendering of four bytes. */
  function IsNonValidIp(ip: string): (invalid: bool)
    ensures invalid <==> !Accepts(ip)
    ensures !invalid <==> exists x :: Render(x) == ip
  {
    if Accepts(ip) then
      AcceptedIsUniqueRendering(ip);
      false
    else
      RejectedIsNoRendering(ip);
      true
  }

  /** A string the pattern rejects renders no address. */
  lemma RejectedIsNoRendering(s: string)
    requires !Accepts(s)
    ensures forall x :: Render(x) != s
  {
    forall x
      ensures Render(x) != s
    {
      RenderRoundTrip(x);
    }
  }

  // ---------------------------------------------------------------------------
  // Round trip with the four bytes of an address.

  type Byte = x: int | 0 <= x < 256

  datatype Address = Address(a: Byte, b: Byte, c: Byte, d: Byte)

  /** The canonical decimal rendering of a byte. */
  function Dec(n: Byte): (p: string)
    ensures IsOctet(p) && Value(p) == n
  {
    if n < 10 then
      var p := [DigitChar(n)];
      ValueOfDigits(p);
      p
    else if n < 100 then
      var p := [DigitChar(n / 10), DigitChar(n % 10)];
      ValueOfDigits(p);
      p
    else
      var p := [DigitChar(n / 100), DigitChar(n / 10 % 10), DigitChar(n % 10)];
      ValueOfDigits(p);
      p
  }

  /** The value of a numeral of one to three digits, written out. */
  lemma ValueOfDigits(p: string)
    requires AllDigits(p) && 1 <= |p| <= 3
    ensures |p| == 1 ==> Value(p) == DigitValue(p[0])
    ensures |p| == 2 ==> Value(p) == 10 * DigitValue(p[0]) + DigitValue(p[1])
    ensures |p| == 3 ==> Value(p) == 100 * DigitValue(p[0]) + 10 * DigitValue(p[1]) + DigitValue(p[2])
  {
    if |p| == 1 {
      assert p[..0] == [];
    } else if |p| == 2 {
      assert p[..1] == [p[0]] && [p[0]][..0] == [];
    } else {
      assert p[..2] == [p[0], p[1]] && [p[0], p[1]][..1] == [p[0]] && [p[0]][..0] == [];
    }
  }

  /** An octet is the rendering of its value. */
  lemma OctetIsCanonical(p: string)
    requires IsOctet(p)
    ensures Dec(Value(p)) == p
  {
    ValueOfDigits(p);
    var v := Value(p);
    if |p| == 1 {
      DigitRoundTrip(p[0]);
    } else if |p| == 2 {
      var d0, d1 := DigitValue(p[0]), DigitValue(p[1]);
      assert v == 10 * d0 + d1 && d0 >= 1;
      assert v / 10 == d0 && v % 10 == d1;
      DigitRoundTrip(p[0]);
      DigitRoundTrip(p[1]);
      assert Dec(v) == [DigitChar(d0), DigitChar(d1)];
    } else {
      var d0, d1, d2 := DigitValue(p[0]), DigitValue(p[1]), DigitValue(p[2]);
      assert v == 100 * d0 + 10 * d1 + d2 && d0 >= 1;
      assert v / 100 == d0 && v / 10 == 10 * d0 + d1 && v % 10 == d2;
      assert v / 10 % 10 == d1;
      DigitRoundTrip(p[0]);
      DigitRoundTrip(p[1]);
      DigitRoundTrip(p[2]);
      assert Dec(v) == [DigitChar(d0), DigitChar(d1), DigitChar(d2)];
    }
  }

  lemma DigitRoundTrip(c: char)
    requires IsDigit(c)
    ensures DigitChar(DigitValue(c)) == c
  {
  }

  /** Dotted-decimal rendering of an address. */
  function Render(x: Address): string
  {
    JoinDots([Dec(x.a), Dec(x.b), Dec(x.c), Dec(x.d)])
  }

  /** The address an accepted string denotes. */
  function ParseIp(s: string): (r: Option<Address>)
    ensures r.Some? <==> Accepts(s)
    ensures r.Some? ==> Render(r.value) == s
  {
    if Accepts(s) then
      var parts := Split(s);
      var x := Address(Value(parts[0]), Value(parts[1]), Value(parts[2]), Value(parts[3]));
      OctetIsCanonical(parts[0]);
      OctetIsCanonical(parts[1]);
      OctetIsCanonical(parts[2]);
      OctetIsCanonical(parts[3]);
      assert parts == [parts[0], parts[1], parts[2], parts[3]];
      JoinSplit(s);
      Some(x)
    else None
  }

  /** Every rendering is accepted and parses back to its address. */
  lemma RenderRoundTrip(x: Address)
    ensures Accepts(Render(x))
    ensures ParseIp(Render(x)) == Some(x)
  {
    var parts := [Dec(x.a), Dec(x.b), Dec(x.c), Dec(x.d)];
    forall i | 0 <= i < 4 ensures '.' !in parts[i] {
      OctetHasNoDot(parts[i]);
    }
    SplitJoin(parts);
  }

  /** Every accepted string renders exactly one address. */
  lemma AcceptedIsUniqueRendering(s: string)
    requires Accepts(s)
    ensures exists x :: Render(x) == s
    ensures forall x, y :: Render(x) == s && Render(y) == s ==> x == y
  {
    assert Render(ParseIp(s).value) == s;
    forall x, y | Render(x) == s && Render(y) == s
      ensures x == y
    {
      RenderRoundTrip(x);
      RenderRoundTrip(y);
    }
  }

  /** The number of dots in a string. */
  function DotCount(s: string): nat
  {
    if s == [] then 0 else (if s[0] == '.' then 1 else 0) + DotCount(s[1..])
  }

  /** An accepted address has exactly three dots and starts and ends with a digit. */
  lemma AcceptedShape(s: string)
    requires Accepts(s)
    ensures DotCount(s) == 3
    ensures IsDigit(s[0]) && IsDigit(s[|s| - 1])
  {
    var parts := Split(s);
    JoinSplit(s);
    forall i | 0 <= i < 4 ensures '.' !in parts[i] {
      OctetHasNoDot(parts[i]);
    }
    JoinDotCount(parts);
    JoinEnds(parts);
  }

  /** Joining n dot-free pieces puts exactly n - 1 dots in. */
  lemma {:induction false} JoinDotCount(parts: seq<string>)
    requires |parts| >= 1
    requires forall i :: 0 <= i < |parts| ==> '.' !in parts[i]
    ensures DotCount(JoinDots(parts)) == |parts| - 1
  {
    NoDotCount(parts[0]);
    if |parts| > 1 {
      JoinDotCount(parts[1..]);
      DotCountAppend(parts[0] + ".", JoinDots(parts[1..]));
      DotCountAppend(parts[0], ".");
    }
  }

  /** A join of non-empty pieces starts with the first piece's first character and
      ends with the last piece's last character. */
  lemma {:induction false} JoinEnds(parts: seq<string>)
    requires |parts| >= 1
    requires forall i :: 0 <= i < |parts| ==> |parts[i]| >= 1
    ensures |JoinDots(parts)| >= 1
    ensures JoinDots(parts)[0] == parts[0][0]
    ensures JoinDots(parts)[|JoinDots(parts)| - 1] == parts[|parts| - 1][|parts[|parts| - 1]| - 1]
  {
    if |parts| > 1 {
      JoinEnds(parts[1..]);
    }
  }

  // ---------------------------------------------------------------------------
  // Splitting and joining.

  lemma OctetHasNoDot(p: string)
    requires IsOctet(p)
    ensures '.' !in p
  {
  }

  lemma {:induction false} NoDotCount(p: string)
    requires '.' !in p
    ensures DotCount(p) == 0
  {
    if p != [] {
      NoDotCount(p[1..]);
    }
  }

  lemma {:induction false} DotCountAppend(a: string, b: string)
    ensures DotCount(a + b) == DotCount(a) + DotCount(b)
  {
    if a != [] {
      assert (a + b)[1..] == a[1..] + b;
      DotCountAppend(a[1..], b);
    } else {
      assert a + b == b;
    }
  }

  /** Joining the pieces of a string gives the string back. */
  lemma {:induction false} JoinSplit(s: string)
    ensures JoinDots(Split(s)) == s
  {
    if s != [] {
      var rest := Split(s[1..]);
      JoinSplit(s[1..]);
      if s[0] == '.' {
        assert Split(s) == [""] + rest;
        assert ([""] + rest)[1..] == rest;
      } else {
        var parts := [[s[0]] + rest[0]] + rest[1..];
        assert Split(s) == parts;
        if |rest| == 1 {
          assert JoinDots(parts) == [s[0]] + rest[0];
        } else {
          assert parts[1..] == rest[1..];
          assert JoinDots(parts) == [s[0]] + rest[0] + "." + JoinDots(rest[1..]);
        }
      }
    }
  }

  lemma {:induction false} SplitNoDot(p: string)
    requires '.' !in p
    ensures Split(p) == [p]
  {
    if p != [] {
      SplitNoDot(p[1..]);
      assert [p[0]] + p[1..] == p;
    }
  }

  lemma {:induction false} SplitCons(p: string, rest: string)
    requires '.' !in p
    ensures Split(p + "." + rest) == [p] + Split(rest)
  {
    var s := p + "." + rest;
    if p == [] {
      assert s == "." + rest;
      assert s[1..] == rest;
    } else {
      assert s[1..] == p[1..] + "." + rest;
      SplitCons(p[1..], rest);
      assert [p[0]] + p[1..] == p;
    }
  }

  /** Splitting dot-free pieces joined with dots gives the pieces back. */
  lemma {:induction false} SplitJoin(parts: seq<string>)
    requires |parts| >= 1
    requires forall i :: 0 <= i < |parts| ==> '.' !in parts[i]
    ensures Split(JoinDots(parts)) == parts
  {
    if |parts| == 1 {
      SplitNoDot(parts[0]);
    } else {
      SplitJoin(parts[1..]);
      SplitCons(parts[0], JoinDots(parts[1..]));
    }
  }
}
