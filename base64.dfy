/** `btoa` and `atob`: base64 with the standard alphabet and `=` padding
    (section 4 of RFC 4648), over "binary strings" whose characters are
    Latin-1 code points standing for bytes.  `atob` follows the WHATWG
    forgiving-base64 decode: ASCII white space is ignored, padding is
    optional, and leftover bits of a final partial group are dropped. */
module Base64 {
  import opened Wrappers
  import Text

  type Byte = x: int | 0 <= x < 256
  type Sextet = x: int | 0 <= x < 64

  /** The character that stands for a 6-bit value. */
  function SextetChar(v: Sextet): (c: char)
    ensures IsAlphabetChar(c)
  {
    if v < 26 then (65 + v) as char
    else if v < 52 then (97 + v - 26) as char
    else if v < 62 then (48 + v - 52) as char
    else if v == 62 then '+'
    else '/'
  }

  predicate IsAlphabetChar(c: char) {
    ('A' <= c <= 'Z') || ('a' <= c <= 'z') || ('0' <= c <= '9') || c == '+' || c == '/'
  }

  /** The 6-bit value a character stands for; `None` outside the alphabet. */
  function CharSextet(c: char): (r: Option<Sextet>)
    ensures r.Some? <==> IsAlphabetChar(c)
  {
    if 'A' <= c <= 'Z' then Some(c as int - 65)
    else if 'a' <= c <= 'z' then Some(c as int - 97 + 26)
    else if '0' <= c <= '9' then Some(c as int - 48 + 52)
    else if c == '+' then Some(62)
    else if c == '/' then Some(63)
    else None
  }

  lemma CharSextetInverse(v: Sextet)
    ensures CharSextet(SextetChar(v)) == Some(v)
  {
  }

  // ---- btoa ----------------------------------------------------------------

  /** Every character is at most U+00FF, so it stands for one byte. */
  predicate IsLatin1(s: string) {
    Text.AllAtMost(s, 0xFF)
  }

  function Bytes(s: string): (b: seq<Byte>)
    requires IsLatin1(s)
    ensures |b| == |s| && forall i :: 0 <= i < |s| ==> b[i] == s[i] as int
  {
    seq(|s|, i requires 0 <= i < |s| => s[i] as int as Byte)
  }

  function BinaryString(b: seq<Byte>): (s: string)
    ensures |s| == |b| && forall i :: 0 <= i < |b| ==> s[i] as int == b[i]
  {
    seq(|b|, i requires 0 <= i < |b| => b[i] as char)
  }

  /** The four sextets of three bytes, high bits first; a missing trailing
      byte counts as zero, which is how a partial final group is encoded. */
  function Split0(b0: Byte): Sextet { b0 / 4 }
  function Split1(b0: Byte, b1: Byte): Sextet { (b0 % 4) * 16 + b1 / 16 }
  function Split2(b1: Byte, b2: Byte): Sextet { (b1 % 16) * 4 + b2 / 64 }
  function Split3(b2: Byte): Sextet { b2 % 64 }

  /** Three bytes as four characters. */
  function Encode3(b0: Byte, b1: Byte, b2: Byte): string {
    [SextetChar(Split0(b0)), SextetChar(Split1(b0, b1)),
     SextetChar(Split2(b1, b2)), SextetChar(Split3(b2))]
  }

  /** The characters of the encoding without the `=` padding. */
  function EncodeUnpadded(b: seq<Byte>): (s: string)
    ensures forall i :: 0 <= i < |s| ==> IsAlphabetChar(s[i])
    decreases |b|
  {
    if |b| == 0 then ""
    else if |b| == 1 then [SextetChar(Split0(b[0])), SextetChar(Split1(b[0], 0))]
    else if |b| == 2 then
      [SextetChar(Split0(b[0])), SextetChar(Split1(b[0], b[1])), SextetChar(Split2(b[1], 0))]
    else Encode3(b[0], b[1], b[2]) + EncodeUnpadded(b[3..])
  }

  lemma ModShift(n: nat, m: nat)
    ensures (n + 3) % 3 == n % 3 && (m + 4) % 4 == m % 4
  {
  }

  /** No, one or two bytes left over after the full groups give no, two or
      three further characters: the unpadded length is 0, 2 or 3 modulo 4. */
  lemma {:induction false} EncodeUnpaddedLength(b: seq<Byte>)
    ensures |b| % 3 == 0 ==> |EncodeUnpadded(b)| % 4 == 0
    ensures |b| % 3 == 1 ==> |EncodeUnpadded(b)| % 4 == 2
    ensures |b| % 3 == 2 ==> |EncodeUnpadded(b)| % 4 == 3
    decreases |b|
  {
    if |b| >= 3 {
      var t := b[3..];
      var n := |EncodeUnpadded(t)|;
      EncodeUnpaddedLength(t);
      assert |EncodeUnpadded(b)| == n + 4;
      ModShift(|t|, n);
    }
  }

  function Padding(b: seq<Byte>): string {
    if |b| % 3 == 1 then "==" else if |b| % 3 == 2 then "=" else ""
  }

  /** `btoa(s)`: `None` where `btoa` throws (a character above U+00FF). */
  function Btoa(s: string): (r: Option<string>)
    ensures r.Some? <==> IsLatin1(s)
  {
    if IsLatin1(s) then Some(EncodeUnpadded(Bytes(s)) + Padding(Bytes(s))) else None
  }

  // ---- atob ----------------------------------------------------------------

  /** ASCII white space in the sense of the WHATWG Infra standard. */
  predicate IsAsciiWhitespace(c: char) {
    c == '\t' || c == '\n' || c == '\U{C}' || c == '\r' || c == ' '
  }

  function RemoveAsciiWhitespace(s: string): string {
    if s == [] then []
    else if IsAsciiWhitespace(s[0]) then RemoveAsciiWhitespace(s[1..])
    else [s[0]] + RemoveAsciiWhitespace(s[1..])
  }

  /** When the length is a multiple of four, one or two trailing `=` go. */
  function StripPadding(s: string): string {
    if |s| % 4 != 0 then s
    else if |s| >= 2 && s[|s| - 2..] == "==" then s[..|s| - 2]
    else if |s| >= 1 && s[|s| - 1] == '=' then s[..|s| - 1]
    else s
  }

  /** The bytes that two, three or four sextets carry, high bits first. */
  function Byte0(c0: Sextet, c1: Sextet): Byte { c0 * 4 + c1 / 16 }
  function Byte1(c1: Sextet, c2: Sextet): Byte { (c1 % 16) * 16 + c2 / 4 }
  function Byte2(c2: Sextet, c3: Sextet): Byte { (c2 % 4) * 64 + c3 }

  /** Decodes groups of four characters into three bytes; a final group of two
      or three characters gives one or two bytes.  `None` when a character is
      outside the alphabet or a single character is left over. */
  function DecodeGroups(s: string): Option<seq<Byte>>
    decreases |s|
  {
    if |s| == 0 then Some([])
    else if |s| == 1 then None
    else if |s| == 2 then
      match (CharSextet(s[0]), CharSextet(s[1]))
      case (Some(c0), Some(c1)) => Some([Byte0(c0, c1)])
      case _ => None
    else if |s| == 3 then
      match (CharSextet(s[0]), CharSextet(s[1]), CharSextet(s[2]))
      case (Some(c0), Some(c1), Some(c2)) => Some([Byte0(c0, c1), Byte1(c1, c2)])
      case _ => None
    else
      match (CharSextet(s[0]), CharSextet(s[1]), CharSextet(s[2]), CharSextet(s[3]), DecodeGroups(s[4..]))
      case (Some(c0), Some(c1), Some(c2), Some(c3), Some(rest)) =>
        Some([Byte0(c0, c1), Byte1(c1, c2), Byte2(c2, c3)] + rest)
      case _ => None
  }

  /** `atob(s)`: `None` where `atob` throws. */
  function Atob(s: string): Option<string> {
    var t := StripPadding(RemoveAsciiWhitespace(s));
    if |t| % 4 == 1 then None
    else match DecodeGroups(t)
      case Some(b) => Some(BinaryString(b))
      case None => None
  }

  // ---- round trip ----------------------------------------------------------

  lemma {:induction false} NoWhitespaceIsUnchanged(s: string)
    requires forall i :: 0 <= i < |s| ==> !IsAsciiWhitespace(s[i])
    ensures RemoveAsciiWhitespace(s) == s
  {
    if s != [] {
      NoWhitespaceIsUnchanged(s[1..]);
    }
  }

  /** Joining the sextets back gives each byte of the group. */
  lemma JoinSplits(b0: Byte, b1: Byte, b2: Byte)
    ensures Byte0(Split0(b0), Split1(b0, b1)) == b0
    ensures Byte1(Split1(b0, b1), Split2(b1, b2)) == b1
    ensures Byte2(Split2(b1, b2), Split3(b2)) == b2
  {
  }

  /** One step of `DecodeGroups` on a string that starts with four alphabet
      characters. */
  lemma DecodeFour(s: string, c0: Sextet, c1: Sextet, c2: Sextet, c3: Sextet)
    requires |s| >= 4
    requires CharSextet(s[0]) == Some(c0) && CharSextet(s[1]) == Some(c1)
    requires CharSextet(s[2]) == Some(c2) && CharSextet(s[3]) == Some(c3)
    ensures DecodeGroups(s) ==
            match DecodeGroups(s[4..])
            case Some(r) => Some([Byte0(c0, c1), Byte1(c1, c2), Byte2(c2, c3)] + r)
            case None => None
  {
  }

  /** Decoding one full group of four characters. */
  lemma DecodeGroup(b0: Byte, b1: Byte, b2: Byte, rest: string)
    ensures DecodeGroups(Encode3(b0, b1, b2) + rest) ==
            match DecodeGroups(rest)
            case Some(r) => Some([b0, b1, b2] + r)
            case None => None
  {
    var c0, c1, c2, c3 := Split0(b0), Split1(b0, b1), Split2(b1, b2), Split3(b2);
    var s := Encode3(b0, b1, b2) + rest;
    CharSextetInverse(c0);
    CharSextetInverse(c1);
    CharSextetInverse(c2);
    CharSextetInverse(c3);
    assert |s| >= 4 && s[4..] == rest;
    assert s[0] == SextetChar(c0) && s[1] == SextetChar(c1);
    assert s[2] == SextetChar(c2) && s[3] == SextetChar(c3);
    DecodeFour(s, c0, c1, c2, c3);
    JoinSplits(b0, b1, b2);
  }

  /** `DecodeGroups` on two or three alphabet characters. */
  lemma DecodeShort(s: string, c0: Sextet, c1: Sextet, c2: Sextet)
    requires |s| == 2 || |s| == 3
    requires CharSextet(s[0]) == Some(c0) && CharSextet(s[1]) == Some(c1)
    requires |s| == 3 ==> CharSextet(s[2]) == Some(c2)
    ensures |s| == 2 ==> DecodeGroups(s) == Some([Byte0(c0, c1)])
    ensures |s| == 3 ==> DecodeGroups(s) == Some([Byte0(c0, c1), Byte1(c1, c2)])
  {
  }

  /** Decoding the two characters of a single final byte. */
  lemma DecodeOne(b0: Byte)
    ensures DecodeGroups([SextetChar(Split0(b0)), SextetChar(Split1(b0, 0))]) == Some([b0])
  {
    var c0, c1 := Split0(b0), Split1(b0, 0);
    var s := [SextetChar(c0), SextetChar(c1)];
    CharSextetInverse(c0);
    CharSextetInverse(c1);
    DecodeShort(s, c0, c1, 0);
    JoinSplits(b0, 0, 0);
  }

  /** Decoding the three characters of two final bytes. */
  lemma DecodeTwo(b0: Byte, b1: Byte)
    ensures DecodeGroups([SextetChar(Split0(b0)), SextetChar(Split1(b0, b1)), SextetChar(Split2(b1, 0))])
            == Some([b0, b1])
  {
    var c0, c1, c2 := Split0(b0), Split1(b0, b1), Split2(b1, 0);
    var s := [SextetChar(c0), SextetChar(c1), SextetChar(c2)];
    CharSextetInverse(c0);
    CharSextetInverse(c1);
    CharSextetInverse(c2);
    DecodeShort(s, c0, c1, c2);
    JoinSplits(b0, b1, 0);
  }

  /** The encoding of fewer than three bytes decodes back to them. */
  lemma DecodeEncodeShort(b: seq<Byte>)
    requires |b| < 3
    ensures DecodeGroups(EncodeUnpadded(b)) == Some(b)
  {
    if |b| == 1 {
      var b0 := b[0];
      assert EncodeUnpadded(b) == [SextetChar(Split0(b0)), SextetChar(Split1(b0, 0))];
      DecodeOne(b0);
      assert b == [b0];
    } else if |b| == 2 {
      var b0, b1 := b[0], b[1];
      assert EncodeUnpadded(b) == [SextetChar(Split0(b0)), SextetChar(Split1(b0, b1)), SextetChar(Split2(b1, 0))];
      DecodeTwo(b0, b1);
      assert b == [b0, b1];
    }
  }

  /** A full group in front of an encoding that decodes to the remaining bytes. */
  lemma DecodeEncodeStep(b: seq<Byte>, rest: string)
    requires |b| >= 3 && DecodeGroups(rest) == Some(b[3..])
    ensures DecodeGroups(Encode3(b[0], b[1], b[2]) + rest) == Some(b)
  {
    DecodeGroup(b[0], b[1], b[2], rest);
    assert b == [b[0], b[1], b[2]] + b[3..];
  }

  lemma {:induction false} DecodeEncodeGroups(b: seq<Byte>)
    ensures DecodeGroups(EncodeUnpadded(b)) == Some(b)
    decreases |b|
  {
    if |b| < 3 {
      DecodeEncodeShort(b);
    } else {
      var rest := EncodeUnpadded(b[3..]);
      assert EncodeUnpadded(b) == Encode3(b[0], b[1], b[2]) + rest;
      DecodeEncodeGroups(b[3..]);
      DecodeEncodeStep(b, rest);
    }
  }

  /** The padding `btoa` appends is exactly what `atob` strips. */
  lemma StripPaddingOfEncoding(u: string, pad: string)
    requires forall i :: 0 <= i < |u| ==> IsAlphabetChar(u[i])
    requires || (pad == "" && |u| % 4 == 0)
             || (pad == "==" && |u| % 4 == 2)
             || (pad == "=" && |u| % 4 == 3)
    ensures StripPadding(u + pad) == u
  {
    var e := u + pad;
    if pad == "" {
      assert u == e;
      if u != [] {
        assert IsAlphabetChar(u[|u| - 1]);
        assert e[|e| - 2..][1] == u[|u| - 1];
      }
    } else if pad == "==" {
      assert e[|e| - 2..] == "==";
      assert e[..|e| - 2] == u;
    } else {
      assert IsAlphabetChar(u[|u| - 1]);
      assert e[|e| - 2..][0] == u[|u| - 1];
      assert e[..|e| - 1] == u;
    }
  }

  /** `atob(btoa(s)) == s` for every string `btoa` accepts. */
  lemma AtobBtoa(s: string)
    requires IsLatin1(s)
    ensures Btoa(s).Some? && Atob(Btoa(s).value) == Some(s)
  {
    var b := Bytes(s);
    var u := EncodeUnpadded(b);
    var e := u + Padding(b);
    assert Btoa(s).value == e;
    NoWhitespaceIsUnchanged(e);
    EncodeUnpaddedLength(b);
    StripPaddingOfEncoding(u, Padding(b));
    DecodeEncodeGroups(b);
    assert BinaryString(b) == s;
  }

  /** `btoa` of a non-empty string is non-empty. */
  lemma BtoaNonEmpty(s: string)
    requires IsLatin1(s) && s != []
    ensures Btoa(s).Some? && Btoa(s).value != []
  {
  }
}
