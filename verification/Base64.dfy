/** The base64 encoding of section 4 of RFC 4648, as the backup payloads use it. */
module Base64 {
  import opened Common

  type Byte = b: int | 0 <= b < 256

  /** Table 1 of RFC 4648. */
  function Digit(n: nat): char
    requires n < 64
  {
    if n < 26 then 'A' + n as char
    else if n < 52 then 'a' + (n - 26) as char
    else if n < 62 then '0' + (n - 52) as char
    else if n == 62 then '+' else '/'
  }

  function ValueOf(c: char): (n: Option<nat>)
    ensures n.Some? ==> n.value < 64
  {
    if 'A' <= c <= 'Z' then Some(c as int - 'A' as int)
    else if 'a' <= c <= 'z' then Some(c as int - 'a' as int + 26)
    else if '0' <= c <= '9' then Some(c as int - '0' as int + 52)
    else if c == '+' then Some(62) else if c == '/' then Some(63) else None
  }

  /** `b64encode`: three bytes make four digits, a shorter last group is padded. */
  function Encode(b: seq<Byte>): string {
    if b == [] then ""
    else if |b| == 1 then [Digit(b[0] / 4), Digit(b[0] % 4 * 16), '=', '=']
    else if |b| == 2 then
      [Digit(b[0] / 4), Digit(b[0] % 4 * 16 + b[1] / 16), Digit(b[1] % 16 * 4), '=']
    else
      [Digit(b[0] / 4), Digit(b[0] % 4 * 16 + b[1] / 16), Digit(b[1] % 16 * 4 + b[2] / 64), Digit(b[2] % 64)]
      + Encode(b[3..])
  }

  /** `b64decode(validate=True)`: nothing but digits, and padding only at the end. */
  function Decode(s: string): Option<seq<Byte>> {
    if s == "" then Some([])
    else if |s| < 4 || ValueOf(s[0]).None? || ValueOf(s[1]).None? then None
    else
      var v0, v1 := ValueOf(s[0]).value, ValueOf(s[1]).value;
      var first: Byte := v0 * 4 + v1 / 16;
      if |s| == 4 && s[2] == '=' && s[3] == '=' then Some([first])
      else if ValueOf(s[2]).None? then None
      else
        var v2 := ValueOf(s[2]).value;
        var second: Byte := v1 % 16 * 16 + v2 / 4;
        if |s| == 4 && s[3] == '=' then Some([first, second])
        else if ValueOf(s[3]).None? then None
        else
          var third: Byte := v2 % 4 * 64 + ValueOf(s[3]).value;
          match Decode(s[4..])
          case None => None
          case Some(rest) => Some([first, second, third] + rest)
  }

  lemma DigitReadsBack(n: nat)
    requires n < 64
    ensures ValueOf(Digit(n)) == Some(n) && Digit(n) != '='
  {
  }

  lemma FirstByte(a: Byte, b: Byte)
    ensures (a / 4) * 4 + (a % 4 * 16 + b / 16) / 16 == a
  {
  }

  lemma SecondByte(a: Byte, b: Byte, c: Byte)
    ensures (a % 4 * 16 + b / 16) % 16 * 16 + (b % 16 * 4 + c / 64) / 4 == b
  {
    assert (a % 4 * 16 + b / 16) % 16 == b / 16;
    assert (b % 16 * 4 + c / 64) / 4 == b % 16;
  }

  lemma ThirdByte(b: Byte, c: Byte)
    ensures (b % 16 * 4 + c / 64) % 4 * 64 + c % 64 == c
  {
    assert (b % 16 * 4 + c / 64) % 4 == c / 64;
  }

  /** Four digits in front of an encoding are the three bytes they hold. */
  lemma GroupDecodes(v0: nat, v1: nat, v2: nat, v3: nat, rest: string)
    requires v0 < 64 && v1 < 64 && v2 < 64 && v3 < 64
    ensures Decode([Digit(v0), Digit(v1), Digit(v2), Digit(v3)] + rest) ==
              match Decode(rest)
              case None => None
              case Some(more) => Some([v0 * 4 + v1 / 16, v1 % 16 * 16 + v2 / 4, v2 % 4 * 64 + v3] + more)
  {
    var s := [Digit(v0), Digit(v1), Digit(v2), Digit(v3)] + rest;
    DigitReadsBack(v0);
    DigitReadsBack(v1);
    DigitReadsBack(v2);
    DigitReadsBack(v3);
    hide ValueOf, Digit;
    assert s[0] == Digit(v0) && s[1] == Digit(v1) && s[2] == Digit(v2) && s[3] == Digit(v3);
    assert s[4..] == rest;
  }

  lemma OneByteDecodes(v0: nat, v1: nat)
    requires v0 < 64 && v1 < 64
    ensures Decode([Digit(v0), Digit(v1), '=', '=']) == Some([v0 * 4 + v1 / 16])
  {
    DigitReadsBack(v0);
    DigitReadsBack(v1);
    hide ValueOf, Digit;
  }

  lemma TwoBytesDecode(v0: nat, v1: nat, v2: nat)
    requires v0 < 64 && v1 < 64 && v2 < 64
    ensures Decode([Digit(v0), Digit(v1), Digit(v2), '=']) == Some([v0 * 4 + v1 / 16, v1 % 16 * 16 + v2 / 4])
  {
    DigitReadsBack(v0);
    DigitReadsBack(v1);
    DigitReadsBack(v2);
    hide ValueOf, Digit;
  }

  /** Decoding what was encoded gives the bytes back. */
  lemma {:induction false} RoundTrip(b: seq<Byte>)
    ensures Decode(Encode(b)) == Some(b)
    decreases |b|
  {
    hide Decode, Digit;
    if b == [] {
      EmptyDecodes();
    } else if |b| == 1 {
      OneByteDecodes(b[0] / 4, b[0] % 4 * 16);
      FirstByte(b[0], 0);
      assert b == [b[0]];
    } else if |b| == 2 {
      TwoBytesDecode(b[0] / 4, b[0] % 4 * 16 + b[1] / 16, b[1] % 16 * 4);
      FirstByte(b[0], b[1]);
      SecondByte(b[0], b[1], 0);
      assert b == [b[0], b[1]];
    } else {
      GroupDecodes(b[0] / 4, b[0] % 4 * 16 + b[1] / 16, b[1] % 16 * 4 + b[2] / 64, b[2] % 64, Encode(b[3..]));
      FirstByte(b[0], b[1]);
      SecondByte(b[0], b[1], b[2]);
      ThirdByte(b[1], b[2]);
      RoundTrip(b[3..]);
      assert b == [b[0], b[1], b[2]] + b[3..];
    }
  }

  lemma EmptyDecodes()
    ensures Decode("") == Some([])
  {
  }

  const ALPHABET := "ABCDEFGHIJKLMNOPQRSTUVWXYZ" + "abcdefghijklmnopqrstuvwxyz" + "0123456789" + "+/"

  /** The digits are the alphabet in order. */
  lemma DigitsAreAlphabet(n: nat)
    requires n < 64
    ensures |ALPHABET| == 64 && Digit(n) == ALPHABET[n]
  {
    var upper, lower, figures := "ABCDEFGHIJKLMNOPQRSTUVWXYZ", "abcdefghijklmnopqrstuvwxyz", "0123456789";
    if n < 26 { InOrder(upper, 'A', n); }
    else if n < 52 { InOrder(lower, 'a', n - 26); }
    else if n < 62 { InOrder(figures, '0', n - 52); }
  }

  /** Consecutive characters from `first` on. */
  predicate Consecutive(s: string, first: char) {
    forall i | 0 <= i < |s| :: s[i] as int == first as int + i
  }

  lemma InOrder(s: string, first: char, i: nat)
    requires i < |s| && Consecutive(s, first)
    ensures s[i] as int == first as int + i
  {
  }

  /** The padding of an encoding: none, one or two signs, after at least two digits. */
  function Padding(s: string): nat {
    if |s| < 4 || s[|s| - 1] != '=' then 0 else if s[|s| - 2] == '=' then 2 else 1
  }

  /** Whole groups of four, and nothing but digits before the padding. */
  predicate WellFormed(s: string) {
    |s| % 4 == 0 && forall i | 0 <= i < |s| - Padding(s) :: ValueOf(s[i]).Some?
  }

  /** Two texts of one length that agree everywhere but in the digit before the padding, which must be
      there. */
  predicate AgreeButLast(s: string, t: string) {
    && |s| == |t| && Padding(s) == Padding(t)
    && forall i | 0 <= i < |s| :: s[i] != t[i] ==> Padding(s) > 0 && i == |s| - Padding(s) - 1
  }

  lemma ValueReadsBack(c: char)
    requires ValueOf(c).Some?
    ensures Digit(ValueOf(c).value) == c && c != '='
  {
  }

  /** The three bytes of four digits have those digits. */
  lemma DigitsOfGroup(v0: nat, v1: nat, v2: nat, v3: nat)
    requires v0 < 64 && v1 < 64 && v2 < 64 && v3 < 64
    ensures var a, b, c := v0 * 4 + v1 / 16, v1 % 16 * 16 + v2 / 4, v2 % 4 * 64 + v3;
            a < 256 && b < 256 && c < 256 && a / 4 == v0 && a % 4 * 16 + b / 16 == v1 && b % 16 * 4 + c / 64 == v2 && c % 64 == v3
            && a % 4 * 16 == v1 / 16 * 16 && b % 16 * 4 == v2 / 4 * 4
  {
    var a, b, c := v0 * 4 + v1 / 16, v1 % 16 * 16 + v2 / 4, v2 % 4 * 64 + v3;
    assert a / 4 == v0 && a % 4 == v1 / 16;
    assert b / 16 == v1 % 16 && b % 16 == v2 / 4;
    assert c / 64 == v2 % 4 && c % 64 == v3;
  }

  lemma OneByteGroup(s: string)
    requires |s| == 4 && s[2] == '=' && s[3] == '='
    ensures Decode(s).Some? <==> ValueOf(s[0]).Some? && ValueOf(s[1]).Some?
    ensures Decode(s).Some? ==> AgreeButLast(s, Encode(Decode(s).value))
  {
    hide ValueOf, Digit;
    if Decode(s).Some? {
      var v0, v1 := ValueOf(s[0]).value, ValueOf(s[1]).value;
      DigitsOfGroup(v0, v1, 0, 0);
      ValueReadsBack(s[0]);
      DigitReadsBackAll();
      var a := v0 * 4 + v1 / 16;
      assert Decode(s).value == [a];
      assert Encode([a]) == [s[0], Digit(a % 4 * 16), '=', '='];
    }
  }

  lemma TwoByteGroup(s: string)
    requires |s| == 4 && s[2] != '=' && s[3] == '='
    ensures Decode(s).Some? <==> ValueOf(s[0]).Some? && ValueOf(s[1]).Some? && ValueOf(s[2]).Some?
    ensures Decode(s).Some? ==> AgreeButLast(s, Encode(Decode(s).value))
  {
    hide ValueOf, Digit;
    if Decode(s).Some? {
      var v0, v1, v2 := ValueOf(s[0]).value, ValueOf(s[1]).value, ValueOf(s[2]).value;
      DigitsOfGroup(v0, v1, v2, 0);
      ValueReadsBack(s[0]);
      ValueReadsBack(s[1]);
      DigitReadsBackAll();
      var a, b := v0 * 4 + v1 / 16, v1 % 16 * 16 + v2 / 4;
      assert Decode(s).value == [a, b];
      assert Encode([a, b]) == [s[0], s[1], Digit(b % 16 * 4), '='];
    }
  }

  /** A last group with padding. */
  lemma PaddedGroup(s: string)
    requires |s| == 4 && s[3] == '='
    ensures Decode(s).Some? <==> WellFormed(s)
    ensures Decode(s).Some? ==> AgreeButLast(s, Encode(Decode(s).value))
  {
    hide ValueOf, Digit, Decode, Encode;
    if s[2] == '=' { OneByteGroup(s); } else { TwoByteGroup(s); }
  }

  lemma DigitReadsBackAll()
    ensures forall n: nat | n < 64 :: Digit(n) != '='
  {
  }

  lemma WholeGroupDecodes(s: string)
    requires |s| >= 4 && !(|s| == 4 && s[3] == '=')
    ensures Decode(s).Some? <==>
              && ValueOf(s[0]).Some? && ValueOf(s[1]).Some? && ValueOf(s[2]).Some? && ValueOf(s[3]).Some?
              && Decode(s[4..]).Some?
    ensures Decode(s).Some? ==>
              var v0, v1, v2, v3 := ValueOf(s[0]).value, ValueOf(s[1]).value, ValueOf(s[2]).value, ValueOf(s[3]).value;
              Decode(s).value == [v0 * 4 + v1 / 16, v1 % 16 * 16 + v2 / 4, v2 % 4 * 64 + v3] + Decode(s[4..]).value
  {
    assert ValueOf('=') == None;
    hide ValueOf;
  }

  lemma WholeGroup(s: string)
    requires |s| >= 4 && !(|s| == 4 && s[3] == '=')
    ensures Decode(s).Some? <==>
              && ValueOf(s[0]).Some? && ValueOf(s[1]).Some? && ValueOf(s[2]).Some? && ValueOf(s[3]).Some?
              && Decode(s[4..]).Some?
    ensures Decode(s).Some? ==> Encode(Decode(s).value) == s[..4] + Encode(Decode(s[4..]).value)
  {
    hide *;
    WholeGroupDecodes(s);
    if Decode(s).Some? {
      ValueReadsBack(s[0]);
      ValueReadsBack(s[1]);
      ValueReadsBack(s[2]);
      ValueReadsBack(s[3]);
      GroupEncodes(ValueOf(s[0]).value, ValueOf(s[1]).value, ValueOf(s[2]).value, ValueOf(s[3]).value, Decode(s[4..]).value);
      assert s[..4] == [s[0], s[1], s[2], s[3]];
    }
  }

  lemma GroupEncodes(v0: nat, v1: nat, v2: nat, v3: nat, rest: seq<Byte>)
    requires v0 < 64 && v1 < 64 && v2 < 64 && v3 < 64
    ensures Encode([v0 * 4 + v1 / 16, v1 % 16 * 16 + v2 / 4, v2 % 4 * 64 + v3] + rest) ==
              [Digit(v0), Digit(v1), Digit(v2), Digit(v3)] + Encode(rest)
  {
    hide Digit;
    DigitsOfGroup(v0, v1, v2, v3);
    var bytes: seq<Byte> := [v0 * 4 + v1 / 16, v1 % 16 * 16 + v2 / 4, v2 % 4 * 64 + v3] + rest;
    assert bytes[3..] == rest;
  }

  lemma GroupsWellFormed(s: string)
    requires |s| >= 4 && !(|s| == 4 && s[3] == '=')
    ensures WellFormed(s) <==>
              && ValueOf(s[0]).Some? && ValueOf(s[1]).Some? && ValueOf(s[2]).Some? && ValueOf(s[3]).Some?
              && WellFormed(s[4..])
    ensures |s| % 4 == 0 ==> Padding(s) == Padding(s[4..])
  {
    hide ValueOf;
    var rest := s[4..];
    if |s| % 4 == 0 {
      assert |rest| >= 4 || rest == "";
      assert forall i | 0 <= i < |rest| :: rest[i] == s[i + 4];
      assert forall i | 4 <= i < |s| :: s[i] == rest[i - 4];
    }
  }

  /** Exactly well-formed texts decode, and encoding what they decode to gives the text back, but for
      the unused bits of a digit before padding. */
  lemma {:induction false} DecodesExactly(s: string)
    ensures Decode(s).Some? <==> WellFormed(s)
    ensures Decode(s).Some? ==> AgreeButLast(s, Encode(Decode(s).value))
    decreases |s|
  {
    if |s| < 4 {
      assert Encode([]) == "";
    } else if |s| == 4 && s[3] == '=' {
      PaddedGroup(s);
    } else {
      WholeGroup(s);
      GroupsWellFormed(s);
      DecodesExactly(s[4..]);
      if Decode(s).Some? { GroupAgrees(s, Encode(Decode(s[4..]).value)); }
    }
  }

  lemma GroupAgrees(s: string, rest: string)
    requires |s| >= 4 && |s| % 4 == 0 && !(|s| == 4 && s[3] == '=') && AgreeButLast(s[4..], rest)
    requires Padding(s) == Padding(s[4..])
    requires |s| == 4 ==> rest == ""
    ensures AgreeButLast(s, s[..4] + rest)
  {
    var t := s[..4] + rest;
    assert forall i | 4 <= i < |s| :: s[i] == s[4..][i - 4] && t[i] == rest[i - 4];
    assert forall i | 0 <= i < 4 :: t[i] == s[i];
  }
}
