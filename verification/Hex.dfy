/** Byte strings, their hex-digit rendering, and the Python string operations that the calldata
    encoders apply to them (`bytes.hex`, `bytes.fromhex`, `str.zfill`, `int.to_bytes`, ...).
    Hex text is in lower case when it is written; it is read in either case. */
module Hex {
  import opened Wrappers

  type byte = b: int | 0 <= b < 256

  // ---- Digits ----

  function Digit(n: nat): (c: char)
    requires n < 16
  {
    if n < 10 then ('0' as int + n) as char else ('a' as int + n - 10) as char
  }

  /** The value of a hex digit of either case. */
  function DigitValue(c: char): (v: Option<nat>)
    ensures v.Some? ==> v.value < 16
  {
    if '0' <= c <= '9' then Some(c as int - '0' as int)
    else if 'a' <= c <= 'f' then Some(c as int - 'a' as int + 10)
    else if 'A' <= c <= 'F' then Some(c as int - 'A' as int + 10)
    else None
  }

  lemma LowerCharIsDigit(c: char)
    requires DigitValue(c).Some?
    ensures LowerChar(c) == Digit(DigitValue(c).value) && !IsSpace(c)
  {}

  predicate AllDigits(s: string) {
    forall i :: 0 <= i < |s| ==> DigitValue(s[i]).Some?
  }

  // ---- str.lower, str.removeprefix, str.lstrip, str.zfill, str.ljust on hex text ----

  function LowerChar(c: char): char {
    if 'A' <= c <= 'Z' then (c as int + 32) as char else c
  }

  function Lower(s: string): (t: string)
    ensures |t| == |s|
    ensures forall i :: 0 <= i < |s| ==> t[i] == LowerChar(s[i])
  {
    if s == [] then [] else [LowerChar(s[0])] + Lower(s[1..])
  }

  function RemovePrefix0x(s: string): string {
    if |s| >= 2 && s[..2] == "0x" then s[2..] else s
  }

  /** `s.lstrip("0x")`: drops every leading character that is '0' or 'x'. */
  function LStrip0x(s: string): string {
    if s != [] && (s[0] == '0' || s[0] == 'x') then LStrip0x(s[1..]) else s
  }

  function Repeat<T>(x: T, n: nat): (s: seq<T>)
    ensures |s| == n && forall i :: 0 <= i < n ==> s[i] == x
  {
    seq(n, _ => x)
  }

  function Zeros(n: nat): (s: seq<byte>)
    ensures |s| == n
  {
    Repeat(0, n)
  }

  function ZFill(s: string, width: nat): string {
    if |s| >= width then s else Repeat('0', width - |s|) + s
  }

  function LJust0(s: string, width: nat): string {
    if |s| >= width then s else s + Repeat('0', width - |s|)
  }

  function RemoveSpaces(s: string): (t: string)
    ensures ' ' !in s ==> t == s
  {
    if s == [] then [] else (if s[0] == ' ' then [] else [s[0]]) + RemoveSpaces(s[1..])
  }

  // ---- bytes.hex and bytes.fromhex ----

  function ToHex(bs: seq<byte>): (s: string)
    ensures |s| == 2 * |bs|
  {
    if bs == [] then [] else [Digit(bs[0] / 16), Digit(bs[0] % 16)] + ToHex(bs[1..])
  }

  predicate IsSpace(c: char) {
    c == ' ' || ('\t' <= c <= '\r')
  }

  /** `bytes.fromhex`: two digits a byte, white space allowed between bytes; None is ValueError. */
  function FromHex(s: string): (r: Option<seq<byte>>) {
    if s == [] then Some([])
    else if IsSpace(s[0]) then FromHex(s[1..])
    else if |s| < 2 || DigitValue(s[0]).None? || DigitValue(s[1]).None? then None
    else
      match FromHex(s[2..])
      case None => None
      case Some(rest) => Some([DigitValue(s[0]).value * 16 + DigitValue(s[1]).value] + rest)
  }

  lemma {:induction false} ToHexConcat(a: seq<byte>, b: seq<byte>)
    ensures ToHex(a + b) == ToHex(a) + ToHex(b)
  {
    if a == [] {
      assert a + b == b;
    } else {
      assert (a + b)[1..] == a[1..] + b;
      ToHexConcat(a[1..], b);
    }
  }

  /** Reading back what `bytes.hex` wrote gives the same bytes. */
  lemma {:induction false} FromHexToHex(bs: seq<byte>)
    ensures FromHex(ToHex(bs)) == Some(bs)
  {
    if bs != [] {
      FromHexToHex(bs[1..]);
      var s := ToHex(bs);
      assert s[0] == Digit(bs[0] / 16) && s[1] == Digit(bs[0] % 16);
      assert s[2..] == ToHex(bs[1..]);
      assert bs == [bs[0]] + bs[1..];
    }
  }

  lemma {:induction false} LowerOfTail(s: string, n: nat)
    requires n <= |s|
    ensures Lower(s)[n..] == Lower(s[n..])
  {}

  lemma LowerCharSame(c: char)
    ensures DigitValue(LowerChar(c)) == DigitValue(c) && IsSpace(LowerChar(c)) == IsSpace(c)
    ensures LowerChar(LowerChar(c)) == LowerChar(c)
  {}

  /** Reading hex text does not depend on its letter case. */
  lemma {:induction false} FromHexLower(s: string)
    ensures FromHex(Lower(s)) == FromHex(s)
    decreases |s|
  {
    if s != [] {
      LowerCharSame(s[0]);
      if IsSpace(s[0]) {
        LowerOfTail(s, 1);
        FromHexLower(s[1..]);
      } else if |s| >= 2 {
        LowerCharSame(s[1]);
        LowerOfTail(s, 2);
        FromHexLower(s[2..]);
      }
    }
  }

  lemma {:induction false} LowerLStrip(s: string)
    requires forall i :: 0 <= i < |s| ==> s[i] != 'X'
    ensures Lower(LStrip0x(s)) == LStrip0x(Lower(s))
    decreases |s|
  {
    if s != [] && (s[0] == '0' || s[0] == 'x') {
      LowerOfTail(s, 1);
      LowerLStrip(s[1..]);
    }
  }

  /** Text without capital letters. */
  predicate IsLower(s: string) {
    forall i :: 0 <= i < |s| ==> LowerChar(s[i]) == s[i]
  }

  lemma {:induction false} RemoveSpacesIsLower(s: string)
    requires IsLower(s)
    ensures IsLower(RemoveSpaces(s))
    decreases |s|
  {
    if s != [] { RemoveSpacesIsLower(s[1..]); }
  }

  /** A digit string of either case is, once lowered, exactly the rendering of the bytes it
      denotes; it denotes bytes exactly when it has an even number of digits. */
  lemma {:induction false} LowerIsToHex(s: string)
    requires AllDigits(s)
    ensures FromHex(s).Some? <==> |s| % 2 == 0
    ensures FromHex(s).Some? ==> Lower(s) == ToHex(FromHex(s).value)
  {
    if s == [] {
    } else if |s| == 1 {
      LowerCharIsDigit(s[0]);
    } else {
      var hi, lo := DigitValue(s[0]).value, DigitValue(s[1]).value;
      LowerCharIsDigit(s[0]);
      LowerCharIsDigit(s[1]);
      LowerIsToHex(s[2..]);
      if FromHex(s[2..]).Some? {
        var rest := FromHex(s[2..]).value;
        var bs := [hi * 16 + lo] + rest;
        assert FromHex(s) == Some(bs);
        assert bs[1..] == rest;
        assert bs[0] / 16 == hi && bs[0] % 16 == lo;
      }
    }
  }

  lemma {:induction false} RepeatToHex(n: nat)
    ensures ToHex(Zeros(n)) == Repeat('0', 2 * n)
  {
    if n > 0 {
      var zeros := Zeros(n);
      RepeatToHex(n - 1);
      assert zeros[1..] == Zeros(n - 1);
      assert Digit(zeros[0] / 16) == '0' && Digit(zeros[0] % 16) == '0';
      assert Repeat('0', 2 * n) == ['0', '0'] + Repeat('0', 2 * n - 2);
    }
  }

  /** Left-padding the digits is left-padding the bytes. */
  lemma {:induction false} ZFillToHex(bs: seq<byte>, width: nat)
    requires |bs| <= width
    ensures ZFill(ToHex(bs), 2 * width) == ToHex(Zeros(width - |bs|) + bs)
  {
    RepeatToHex(width - |bs|);
    ToHexConcat(Zeros(width - |bs|), bs);
  }

  /** Right-padding the digits is right-padding the bytes. */
  lemma {:induction false} LJustToHex(bs: seq<byte>, width: nat)
    requires |bs| <= width
    ensures LJust0(ToHex(bs), 2 * width) == ToHex(bs + Zeros(width - |bs|))
  {
    RepeatToHex(width - |bs|);
    ToHexConcat(bs, Zeros(width - |bs|));
  }

  // ---- int.to_bytes and hex(n) ----

  function Pow256(k: nat): (p: nat)
    ensures p > 0
  {
    if k == 0 then 1 else 256 * Pow256(k - 1)
  }

  /** Big-endian bytes of n, `width` of them. */
  function BigEndian(n: nat, width: nat): (bs: seq<byte>)
    ensures |bs| == width
  {
    if width == 0 then [] else BigEndian(n / 256, width - 1) + [n % 256]
  }

  function FromBigEndian(bs: seq<byte>): nat {
    if bs == [] then 0 else FromBigEndian(bs[..|bs| - 1]) * 256 + bs[|bs| - 1]
  }

  lemma {:induction false} BigEndianRoundTrip(n: nat, width: nat)
    requires n < Pow256(width)
    ensures FromBigEndian(BigEndian(n, width)) == n
  {
    if width > 0 {
      BigEndianRoundTrip(n / 256, width - 1);
      var bs := BigEndian(n, width);
      assert bs[..|bs| - 1] == BigEndian(n / 256, width - 1);
    }
  }

  /** `hex(n)[2:]`: the shortest lower-case digit string. */
  function NatHex(n: nat): (s: string)
    ensures |s| > 0
  {
    if n < 16 then [Digit(n)] else NatHex(n / 16) + [Digit(n % 16)]
  }

  /** Big-endian hex digits of n, `width` of them. */
  function FixedHex(n: nat, width: nat): (s: string)
    ensures |s| == width
  {
    if width == 0 then [] else FixedHex(n / 16, width - 1) + [Digit(n % 16)]
  }

  lemma {:induction false} FixedHexOfZero(width: nat)
    ensures FixedHex(0, width) == Repeat('0', width)
  {
    if width > 0 { FixedHexOfZero(width - 1); }
  }

  function Pow16(k: nat): (p: nat)
    ensures p > 0
  {
    if k == 0 then 1 else 16 * Pow16(k - 1)
  }

  lemma {:induction false} ZFillNatHex(n: nat, width: nat)
    requires n < Pow16(width) && width > 0
    ensures |NatHex(n)| <= width
    ensures ZFill(NatHex(n), width) == FixedHex(n, width)
  {
    if n < 16 {
      FixedHexOfZero(width - 1);
    } else {
      assert Pow16(width) == 16 * Pow16(width - 1);
      ZFillNatHex(n / 16, width - 1);
      var k := |NatHex(n / 16)|;
      assert ZFill(NatHex(n), width) == Repeat('0', width - 1 - k) + NatHex(n / 16) + [Digit(n % 16)];
    }
  }

  lemma {:induction false} FixedHexIsToHex(n: nat, width: nat)
    ensures FixedHex(n, 2 * width) == ToHex(BigEndian(n, width))
    ensures Pow16(2 * width) == Pow256(width)
  {
    if width > 0 {
      FixedHexIsToHex(n / 256, width - 1);
      ToHexConcat(BigEndian(n / 256, width - 1), [n % 256]);
      assert FixedHex(n, 2 * width) == FixedHex(n / 16, 2 * width - 1) + [Digit(n % 16)];
      assert FixedHex(n / 16, 2 * width - 1) == FixedHex(n / 16 / 16, 2 * width - 2) + [Digit(n / 16 % 16)];
      assert n / 16 / 16 == n / 256 && n / 16 % 16 == n % 256 / 16 && n % 16 == n % 256 % 16;
      assert ToHex([n % 256]) == [Digit(n % 256 / 16), Digit(n % 256 % 16)];
    }
  }

  /** `hex(n)[2:].zfill(2 * width)` is `n.to_bytes(width, "big").hex()`. */
  lemma {:induction false} ZFillNatHexIsToHex(n: nat, width: nat)
    requires n < Pow256(width) && width > 0
    ensures ZFill(NatHex(n), 2 * width) == ToHex(BigEndian(n, width))
  {
    FixedHexIsToHex(n, width);
    ZFillNatHex(n, 2 * width);
  }

  // ---- White space ----

  /** Removing spaces drops them and keeps everything else in order. */
  lemma SpaceIsRemoved(c: char, s: string)
    ensures RemoveSpaces([c] + s) == (if c == ' ' then [] else [c]) + RemoveSpaces(s)
  {
    assert ([c] + s)[1..] == s;
  }

  lemma {:induction false} NoSpaceIsLeft(s: string)
    ensures ' ' !in RemoveSpaces(s)
    decreases |s|
  {
    if s != [] { NoSpaceIsLeft(s[1..]); }
  }

  lemma FirstByte(b: byte, s: string)
    ensures FromHex(ToHex([b]) + s).Some? <==> FromHex(s).Some?
    ensures FromHex(s).Some? ==> FromHex(ToHex([b]) + s) == Some([b] + FromHex(s).value)
  {
    var t := ToHex([b]) + s;
    assert ToHex([b]) == [Digit(b / 16), Digit(b % 16)] by { assert [b][1..] == []; }
    assert t[0] == Digit(b / 16) && t[1] == Digit(b % 16) && t[2..] == s;
  }

  lemma SameRest(b: byte, x: string, y: string)
    requires FromHex(x) == FromHex(y)
    ensures FromHex(ToHex([b]) + x) == FromHex(ToHex([b]) + y)
  {
    FirstByte(b, x);
    FirstByte(b, y);
  }

  /** White space between two bytes is skipped. */
  lemma {:induction false} SpaceIsSkipped(bs: seq<byte>, c: char, s: string)
    requires IsSpace(c)
    ensures FromHex(ToHex(bs) + [c] + s) == FromHex(ToHex(bs) + s)
    decreases |bs|
  {
    if bs == [] {
      assert ToHex(bs) + [c] + s == [c] + s && ToHex(bs) + s == s;
      assert ([c] + s)[1..] == s;
    } else {
      var b, rest := bs[0], bs[1..];
      SpaceIsSkipped(rest, c, s);
      ToHexConcat([b], rest);
      assert bs == [b] + rest;
      assert ToHex(bs) + [c] + s == ToHex([b]) + (ToHex(rest) + [c] + s);
      assert ToHex(bs) + s == ToHex([b]) + (ToHex(rest) + s);
      SameRest(b, ToHex(rest) + [c] + s, ToHex(rest) + s);
    }
  }

  /** A word is the big-endian form of the number it stands for. */
  lemma {:induction false} BigEndianOfNumber(bs: seq<byte>)
    ensures BigEndian(FromBigEndian(bs), |bs|) == bs
    decreases |bs|
  {
    if bs != [] {
      var front, last := bs[..|bs| - 1], bs[|bs| - 1];
      BigEndianOfNumber(front);
      var n := FromBigEndian(bs);
      assert n / 256 == FromBigEndian(front) && n % 256 == last;
      assert bs == front + [last];
    }
  }
}
