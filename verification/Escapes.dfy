/** Writing any text as ASCII for a properties file, which reads escapes back. */
module Escapes {
  import opened Wrappers

  // One UTF-16 unit of a text.
  type Unit = n: int | 0 <= n < 0x1_0000

  const BACKSLASH: Unit := 0x5C
  const LOWER_U: Unit := 0x75

  // A shift to the right by a number of hexadecimal digits.
  function Shifted(ch: Unit, digits: nat): (r: Unit) {
    if digits == 0 then ch else Shifted(ch, digits - 1) / 0x10
  }

  function HexDigit(ch: Unit, offset: nat): Unit {
    var val := Shifted(ch, offset / 4) % 0x10;
    if val <= 9 then 0x30 + val else 0x41 + val - 10
  }

  function EscapeOf(ch: Unit): seq<Unit> {
    [BACKSLASH, LOWER_U, HexDigit(ch, 12), HexDigit(ch, 8), HexDigit(ch, 4), HexDigit(ch, 0)]
  }

  function UnitEscaped(ch: Unit): seq<Unit> {
    if ch <= 0x7E then [ch] else EscapeOf(ch)
  }

  function Escaped(str: seq<Unit>): seq<Unit> {
    if str == [] then [] else UnitEscaped(str[0]) + Escaped(str[1..])
  }

  lemma {:induction false} EscapedSnoc(str: seq<Unit>, ch: Unit)
    ensures Escaped(str + [ch]) == Escaped(str) + UnitEscaped(ch)
  {
    if str == [] {
      assert Escaped([ch]) == UnitEscaped(ch) + Escaped([]);
    } else {
      assert (str + [ch])[1..] == str[1..] + [ch];
      EscapedSnoc(str[1..], ch);
    }
  }

  method EscapifyStr(str: seq<Unit>) returns (result: seq<Unit>)
    ensures result == Escaped(str)
  {
    result := [];
    var x := 0;
    while x < |str|
      invariant x <= |str|
      invariant result == Escaped(str[..x])
    {
      var ch := str[x];
      EscapedSnoc(str[..x], ch);
      assert str[..x + 1] == str[..x] + [ch];
      x := x + 1;
      if ch <= 0x7E {
        result := result + [ch];
        continue;
      }
      result := result + [BACKSLASH];
      result := result + [LOWER_U];
      result := result + [HexDigit(ch, 12)];
      result := result + [HexDigit(ch, 8)];
      result := result + [HexDigit(ch, 4)];
      result := result + [HexDigit(ch, 0)];
    }
    assert str[..x] == str;
  }

  // ---------- Reading a value back ----------

  type Digit = n: int | 0 <= n < 0x10

  function HexValue(u: Unit): Option<Digit> {
    if 0x30 <= u <= 0x39 then Some(u - 0x30)
    else if 0x41 <= u <= 0x46 then Some(u - 0x41 + 10)
    else if 0x61 <= u <= 0x66 then Some(u - 0x61 + 10)
    else None
  }

  function FourDigits(s: seq<Unit>): Option<Unit>
    requires |s| == 4
  {
    if HexValue(s[0]).None? || HexValue(s[1]).None? || HexValue(s[2]).None? || HexValue(s[3]).None? then None
    else Some(FourDigitsOf(HexValue(s[0]).value, HexValue(s[1]).value, HexValue(s[2]).value, HexValue(s[3]).value))
  }

  function FourDigitsOf(a: Digit, b: Digit, c: Digit, d: Digit): Unit {
    ((a * 0x10 + b) * 0x10 + c) * 0x10 + d
  }

  // The letters that stand for a control character after a backslash.
  function Control(u: Unit): Unit {
    if u == 0x74 then 0x09 else if u == 0x72 then 0x0D else if u == 0x6E then 0x0A else if u == 0x66 then 0x0C else u
  }

  // The text that a logical line of a properties file stands for; None is the exception
  // of a malformed group. A backslash at the very end reads as nothing.
  function Decoded(s: seq<Unit>): Option<seq<Unit>> {
    if s == [] then Some([])
    else if s[0] != BACKSLASH then Prepend(s[0], Decoded(s[1..]))
    else if |s| == 1 then Some([])
    else if s[1] != LOWER_U then Prepend(Control(s[1]), Decoded(s[2..]))
    else if |s| < 6 || FourDigits(s[2..6]).None? then None
    else Prepend(FourDigits(s[2..6]).value, Decoded(s[6..]))
  }

  function Prepend(u: Unit, rest: Option<seq<Unit>>): Option<seq<Unit>> {
    if rest.None? then None else Some([u] + rest.value)
  }

  // ---------- What escaping promises ----------

  ghost predicate Ascii(s: seq<Unit>) {
    forall i :: 0 <= i < |s| ==> s[i] <= 0x7E
  }

  // The result fits a single-byte encoding.
  lemma {:induction false} EscapedIsAscii(str: seq<Unit>)
    ensures Ascii(Escaped(str))
  {
    if str != [] {
      EscapedIsAscii(str[1..]);
    }
  }

  // A text without such units stays as it is.
  lemma {:induction false} AsciiStays(str: seq<Unit>)
    requires Ascii(str)
    ensures Escaped(str) == str
  {
    if str != [] {
      AsciiStays(str[1..]);
      assert str == [str[0]] + str[1..];
    }
  }

  // After a backslash the letters t, n, f and r read as control characters and all others
  // but u as themselves; the letters a to f read as the digits A to F.
  lemma ReaderConventions(s: seq<Unit>, digit: Digit)
    requires |s| == 2 && s[0] == BACKSLASH && s[1] != LOWER_U
    ensures s[1] == 116 ==> Decoded(s) == Some([9])
    ensures s[1] == 110 ==> Decoded(s) == Some([10])
    ensures s[1] == 102 ==> Decoded(s) == Some([12])
    ensures s[1] == 114 ==> Decoded(s) == Some([13])
    ensures s[1] !in {116, 110, 102, 114} ==> Decoded(s) == Some([s[1]])
    ensures digit >= 10 ==> HexValue(97 + digit - 10) == Some(digit) == HexValue(65 + digit - 10)
  {
    assert s[2..] == [];
    assert Decoded(s[2..]) == Some([]);
    assert [Control(s[1])] + [] == [Control(s[1])];
  }

  lemma DigitReadsBack(ch: Unit, offset: nat)
    ensures HexValue(HexDigit(ch, offset)) == Some(Shifted(ch, offset / 4) % 0x10)
  {
  }

  lemma GroupReadsBack(ch: Unit)
    ensures FourDigits(EscapeOf(ch)[2..6]) == Some(ch)
  {
    DigitReadsBack(ch, 12);
    DigitReadsBack(ch, 8);
    DigitReadsBack(ch, 4);
    DigitReadsBack(ch, 0);
    DigitsAddUp(ch);
  }

  lemma DigitsAddUp(ch: Unit)
    ensures var c, b, a := Shifted(ch, 1), Shifted(ch, 2), Shifted(ch, 3);
            && Shifted(ch, 0) == ch == c * 0x10 + ch % 0x10
            && c == b * 0x10 + c % 0x10 && b == a * 0x10 + b % 0x10 && a == a % 0x10
  {
    var c, b := Shifted(ch, 1), Shifted(ch, 2);
    assert c == ch / 0x10 && b == c / 0x10 && Shifted(ch, 3) == b / 0x10;
  }

  lemma {:induction false} NoBackslashReadsBack(str: seq<Unit>)
    requires BACKSLASH !in str
    ensures Decoded(Escaped(str)) == Some(str)
  {
    if str != [] {
      var ch, rest := str[0], str[1..];
      NoBackslashReadsBack(rest);
      assert str == [ch] + rest;
      var e := UnitEscaped(ch) + Escaped(rest);
      if ch <= 0x7E {
        assert e[1..] == Escaped(rest);
      } else {
        assert e[2..6] == EscapeOf(ch)[2..6] && e[6..] == Escaped(rest);
        GroupReadsBack(ch);
      }
    }
  }

  // Reading ASCII never gives a text that is longer to escape; as long, only if the text
  // has no backslash.
  lemma {:induction false} ReadingShrinks(s: seq<Unit>)
    requires Ascii(s) && Decoded(s).Some?
    ensures |Escaped(Decoded(s).value)| <= |s|
    ensures |Escaped(Decoded(s).value)| == |s| ==> BACKSLASH !in Decoded(s).value
  {
    if s == [] {
    } else if s[0] != BACKSLASH {
      ReadingShrinks(s[1..]);
      PrependedLength(s[0], Decoded(s[1..]).value);
    } else if |s| == 1 {
    } else if s[1] != LOWER_U {
      ReadingShrinks(s[2..]);
      PrependedLength(Control(s[1]), Decoded(s[2..]).value);
    } else {
      ReadingShrinks(s[6..]);
      PrependedLength(FourDigits(s[2..6]).value, Decoded(s[6..]).value);
    }
  }

  lemma PrependedLength(u: Unit, s: seq<Unit>)
    ensures |Escaped([u] + s)| == |Escaped(s)| + if u <= 0x7E then 1 else 6
  {
    assert ([u] + s)[1..] == s;
  }

  // Reading gives the text back if and only if it has no backslash.
  lemma ReadsBackIff(str: seq<Unit>)
    ensures Decoded(Escaped(str)) == Some(str) <==> BACKSLASH !in str
  {
    if BACKSLASH !in str {
      NoBackslashReadsBack(str);
    } else if Decoded(Escaped(str)) == Some(str) {
      EscapedIsAscii(str);
      ReadingShrinks(Escaped(str));
    }
  }
}
