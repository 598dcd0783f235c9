/**
 Percent-encoding of byte strings (section 2.1 of RFC 3986) and its inverse. Both copy nothing until the first
 byte that has to change; that they give what an eager coder would give is proved here.
 */
module Url {
  import opened Wrappers
  import opened Chunks

  const SPACE: Byte := 0x20
  const PERCENT: Byte := 0x25
  const PLUS: Byte := 0x2B

  /** The table of bytes passed unchanged: those of section 2.3 of RFC 3986, and '='. */
  predicate Unreserved(c: Byte) {
    || c == 0x2D || c == 0x2E            // - .
    || 0x30 <= c <= 0x39 || c == 0x3D    // digits, =
    || 0x41 <= c <= 0x5A || c == 0x5F    // capital letters, _
    || 0x61 <= c <= 0x7A || c == 0x7E    // small letters, ~
  }

  predicate IsHex(c: Byte) {
    0x30 <= c <= 0x39 || 0x41 <= c <= 0x46 || 0x61 <= c <= 0x66
  }

  /** A digit of the encoder, and the value of a digit of either case. */
  function HexDigit(v: nat): (c: Byte)
    requires v < 16
    ensures IsHex(c) && HexValue(c) == v
  {
    if v < 10 then 0x30 + v else 0x41 + v - 10
  }

  function HexValue(c: Byte): (v: nat)
    requires IsHex(c)
    ensures v < 16
  {
    if c <= 0x39 then c - 0x30 else if c <= 0x46 then c - 0x41 + 10 else c - 0x61 + 10
  }

  // ---- What the eager coders give ----

  function EncodeByte(c: Byte, plus: bool): (r: seq<Byte>)
    ensures 1 <= |r| <= 3
  {
    if Unreserved(c) then [c]
    else if c == SPACE && plus then [PLUS]
    else [PERCENT, HexDigit(c / 16), HexDigit(c % 16)]
  }

  function Encoded(s: seq<Byte>, plus: bool): seq<Byte> {
    if s == [] then [] else EncodeByte(s[0], plus) + Encoded(s[1..], plus)
  }

  /** An escape sequence at the front. */
  predicate Escape(s: seq<Byte>) {
    |s| > 2 && s[0] == PERCENT && IsHex(s[1]) && IsHex(s[2])
  }

  function Decoded(s: seq<Byte>, plus: bool): seq<Byte> {
    if s == [] then []
    else if s[0] == PLUS && plus then [SPACE] + Decoded(s[1..], plus)
    else if Escape(s) then [HexValue(s[1]) * 16 + HexValue(s[2])] + Decoded(s[3..], plus)
    else [s[0]] + Decoded(s[1..], plus)
  }

  // ---- The coders as written ----

  /** The bytes so far, if they had to be copied. */
  function Copied(ss: Option<seq<Byte>>, before: seq<Byte>): seq<Byte> {
    if ss.Some? then ss.value else before
  }

  method UrlEncode(s: seq<Byte>, plus: bool) returns (r: seq<Byte>)
    ensures r == Encoded(s, plus)
  {
    var ss: Option<seq<Byte>> := None;
    for i := 0 to |s|
      invariant Copied(ss, s[..i]) == Encoded(s[..i], plus)
    {
      EncodedAppend(s[..i], s[i], plus);
      assert s[..i + 1] == s[..i] + [s[i]];
      if !Unreserved(s[i]) {
        if ss.None? {
          ss := Some(s[..i]);
        }
        if s[i] == SPACE && plus {
          ss := Some(ss.value + [PLUS]);
        } else {
          ss := Some(ss.value + [PERCENT, HexDigit(s[i] / 16), HexDigit(s[i] % 16)]);
        }
      } else if ss.Some? {
        ss := Some(ss.value + [s[i]]);
      }
    }
    assert s[..|s|] == s;
    r := if ss.None? then s else ss.value;
  }

  lemma {:induction false} EncodedAppend(s: seq<Byte>, c: Byte, plus: bool)
    ensures Encoded(s + [c], plus) == Encoded(s, plus) + EncodeByte(c, plus)
  {
    if s == [] {
      assert [] + [c] == [c] && [c][1..] == [];
      assert Encoded([c], plus) == EncodeByte(c, plus) + [];
    } else {
      EncodedAppend(s[1..], c, plus);
      assert (s + [c])[1..] == s[1..] + [c];
      assert EncodeByte(s[0], plus) + (Encoded(s[1..], plus) + EncodeByte(c, plus)) ==
             EncodeByte(s[0], plus) + Encoded(s[1..], plus) + EncodeByte(c, plus);
    }
  }

  method UrlDecode(s: seq<Byte>, plus: bool) returns (r: seq<Byte>)
    ensures r == Decoded(s, plus)
  {
    var ss: Option<seq<Byte>> := None;
    var i: nat := 0;
    while i < |s|
      invariant i <= |s| && Copied(ss, s[..i]) + Decoded(s[i..], plus) == Decoded(s, plus)
    {
      DecodedStep(Copied(ss, s[..i]), s, i, plus);
      if s[i] == PLUS && plus {
        if ss.None? {
          ss := Some(s[..i]);
        }
        ss := Some(ss.value + [SPACE]);
      } else if s[i] == PERCENT && i + 2 < |s| && IsHex(s[i + 1]) && IsHex(s[i + 2]) {
        if ss.None? {
          ss := Some(s[..i]);
        }
        ss := Some(ss.value + [HexValue(s[i + 1]) * 16 + HexValue(s[i + 2])]);
        i := i + 2;
      } else if ss.Some? {
        ss := Some(ss.value + [s[i]]);
      } else {
        assert s[..i + 1] == s[..i] + [s[i]];
      }
      i := i + 1;
    }
    assert s[..|s|] == s && s[|s|..] == [];
    r := if ss.None? then s else ss.value;
  }

  /** One turn of the decoder. */
  lemma DecodedStep(done: seq<Byte>, s: seq<Byte>, i: nat, plus: bool)
    requires i < |s|
    ensures var rest := s[i..];
            done + Decoded(rest, plus) ==
            if s[i] == PLUS && plus then done + [SPACE] + Decoded(s[i + 1..], plus)
            else if Escape(rest) then done + [HexValue(s[i + 1]) * 16 + HexValue(s[i + 2])] + Decoded(s[i + 3..], plus)
            else done + [s[i]] + Decoded(s[i + 1..], plus)
  {
    var rest := s[i..];
    assert rest[1..] == s[i + 1..];
    if Escape(rest) {
      assert rest[3..] == s[i + 3..];
    }
  }

  // ---- What the coders make of any byte ----

  const CAPITALS: string := "0123456789ABCDEF"
  const SMALLS: string := "0123456789abcdef"

  /** The table in characters. */
  lemma UnreservedAre(c: Byte)
    ensures var x := c as char;
            Unreserved(c) <==> '0' <= x <= '9' || 'A' <= x <= 'Z' || 'a' <= x <= 'z' || x == '-' || x == '.' || x == '_' || x == '~' || x == '='
  {
  }

  /** Hexadecimal digits are read in either case, and written as capitals. */
  lemma DigitsAre(c: Byte, v: nat)
    requires v < 16
    ensures IsHex(c) && HexValue(c) == v <==> c as char == CAPITALS[v] || c as char == SMALLS[v]
    ensures HexDigit(v) as char == CAPITALS[v]
  {
  }

  /** An escape sequence in digits of either case stands for one byte. */
  lemma EscapeDecodes(h: Byte, l: Byte, v: nat, u: nat, more: seq<Byte>, plus: bool)
    requires v < 16 && u < 16
    requires h as char == CAPITALS[v] || h as char == SMALLS[v]
    requires l as char == CAPITALS[u] || l as char == SMALLS[u]
    ensures Decoded([PERCENT, h, l] + more, plus) == [16 * v + u] + Decoded(more, plus)
  {
    DigitsAre(h, v);
    DigitsAre(l, u);
    var s := [PERCENT, h, l] + more;
    assert s[3..] == more;
  }

  /** Any other byte stands for itself, a '%' not followed by two digits included; '+' for a space if asked for. */
  lemma OthersDecode(c: Byte, more: seq<Byte>, plus: bool)
    requires c as char == '%' ==>
               !(|more| > 1 && exists v: nat, u: nat | v < 16 && u < 16 ::
                   (more[0] as char == CAPITALS[v] || more[0] as char == SMALLS[v]) &&
                   (more[1] as char == CAPITALS[u] || more[1] as char == SMALLS[u]))
    ensures Decoded([c] + more, plus) == [if c as char == '+' && plus then ' ' as Byte else c] + Decoded(more, plus)
  {
    var s := [c] + more;
    assert s[1..] == more;
    if Escape(s) {
      DigitsAre(s[1], HexValue(s[1]));
      DigitsAre(s[2], HexValue(s[2]));
    }
  }

  // ---- Round trip ----

  /** Decoding what one byte was encoded to gives that byte, and goes on behind it. */
  lemma DecodeFirst(c: Byte, more: seq<Byte>, plus: bool, readPlus: bool)
    requires plus && c == SPACE ==> readPlus
    ensures Decoded(EncodeByte(c, plus) + more, readPlus) == [c] + Decoded(more, readPlus)
  {
    var e := EncodeByte(c, plus);
    if |e| == 1 {
      assert (e + more)[1..] == more;
    } else {
      assert (e + more)[3..] == more;
      assert HexValue(e[1]) * 16 + HexValue(e[2]) == c;
    }
  }

  /** Decoding with the same flag undoes encoding, for every byte string; so does decoding with '+' as a space. */
  lemma {:induction false} DecodeUndoesEncode(s: seq<Byte>, plus: bool, readPlus: bool)
    requires plus ==> readPlus
    ensures Decoded(Encoded(s, plus), readPlus) == s
  {
    if s != [] {
      DecodeUndoesEncode(s[1..], plus, readPlus);
      DecodeFirst(s[0], Encoded(s[1..], plus), plus, readPlus);
    }
  }

  /** With different flags: exactly the strings without a space survive encoding it as '+' and keeping '+'. */
  lemma {:induction false} DecodeWithoutPlus(s: seq<Byte>)
    ensures Decoded(Encoded(s, true), false) == s <==> SPACE !in s
  {
    if s != [] {
      DecodeWithoutPlus(s[1..]);
      var more := Encoded(s[1..], true);
      if s[0] == SPACE {
        assert ([PLUS] + more)[1..] == more;
        assert Decoded([PLUS] + more, false) == [PLUS] + Decoded(more, false);
      } else {
        DecodeFirst(s[0], more, true, false);
        assert s == [s[0]] + s[1..];
      }
    }
  }

  // ---- What the encoder puts out ----

  /** Unreserved bytes, '+' if asked for, and complete escape sequences with capital digits. */
  predicate WellFormed(r: seq<Byte>, plus: bool) {
    r == [] ||
    if r[0] == PERCENT then
      |r| > 2 && IsHex(r[1]) && IsHex(r[2]) && r[1] < 0x60 && r[2] < 0x60 && WellFormed(r[3..], plus)
    else
      (Unreserved(r[0]) || (plus && r[0] == PLUS)) && WellFormed(r[1..], plus)
  }

  lemma {:induction false} EncodedIsWellFormed(s: seq<Byte>, plus: bool)
    ensures WellFormed(Encoded(s, plus), plus)
    ensures |s| <= |Encoded(s, plus)| <= 3 * |s|
  {
    if s != [] {
      EncodedIsWellFormed(s[1..], plus);
      var e, more := EncodeByte(s[0], plus), Encoded(s[1..], plus);
      if |e| == 1 {
        assert (e + more)[1..] == more;
      } else {
        assert (e + more)[3..] == more;
      }
    }
  }

  /** Nothing is copied exactly when every byte is unreserved. */
  lemma {:induction false} UnchangedIfUnreserved(s: seq<Byte>, plus: bool)
    ensures Encoded(s, plus) == s <==> forall i | 0 <= i < |s| :: Unreserved(s[i])
  {
    if s != [] {
      UnchangedIfUnreserved(s[1..], plus);
      EncodedIsWellFormed(s[1..], plus);
      assert forall i | 0 < i < |s| :: s[i] == s[1..][i - 1];
      if Unreserved(s[0]) {
        assert s == [s[0]] + s[1..];
        assert Encoded(s, plus)[1..] == Encoded(s[1..], plus);
      }
    }
  }
}
