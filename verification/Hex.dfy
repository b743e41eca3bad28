/** Hexadecimal text as the ABI helpers print and parse it (app/src/api/evm.rs). */
module Hex {
  import opened Options

  type byte = x: int | 0 <= x < 256

  type digit = x: int | 0 <= x < 16

  function Pow16(n: nat): (r: nat)
    ensures r >= 1
  {
    if n == 0 then 1 else 16 * Pow16(n - 1)
  }

  lemma {:induction false} Pow16Add(a: nat, b: nat)
    ensures Pow16(a + b) == Pow16(a) * Pow16(b)
  {
    if a > 0 {
      Pow16Add(a - 1, b);
      assert 16 * (Pow16(a - 1) * Pow16(b)) == (16 * Pow16(a - 1)) * Pow16(b);
    }
  }

  /** The widths the service uses. */
  lemma Pow16Values()
    ensures Pow16(2) == 256
    ensures Pow16(16) == 0x1_0000_0000_0000_0000
    ensures Pow16(32) == 0x1_0000_0000_0000_0000_0000_0000_0000_0000
  {
    assert Pow16(4) == 65536;
    Pow16Add(4, 4);
    Pow16Add(8, 8);
    Pow16Add(16, 16);
  }

  // ----- Digits -----

  function DigitChar(d: digit): char { "0123456789abcdef"[d] }

  function DigitOf(c: char): Option<digit>
  {
    if '0' <= c <= '9' then Some((c as int) - ('0' as int))
    else if 'a' <= c <= 'f' then Some((c as int) - ('a' as int) + 10)
    else if 'A' <= c <= 'F' then Some((c as int) - ('A' as int) + 10)
    else None
  }

  predicate IsHex(s: string) { forall i :: 0 <= i < |s| ==> DigitOf(s[i]).Some? }

  predicate IsLowerHex(s: string) { forall i :: 0 <= i < |s| ==> DigitOf(s[i]).Some? && !('A' <= s[i] <= 'F') }

  lemma DigitRoundTrip(d: digit)
    ensures DigitOf(DigitChar(d)) == Some(d)
    ensures !('A' <= DigitChar(d) <= 'F')
    ensures DigitChar(d) == '0' <==> d == 0
  {
  }

  /** `str::to_ascii_lowercase` */
  function Lower(s: string): (r: string)
    ensures |r| == |s|
  {
    seq(|s|, i requires 0 <= i < |s| =>
      if 'A' <= s[i] <= 'Z' then ((s[i] as int) + 32) as char else s[i])
  }

  // ----- Numbers -----

  /** `value` in exactly `width` lower-case digits, most significant first. */
  function HexOf(value: nat, width: nat): (r: string)
    ensures |r| == width
  {
    if width == 0 then "" else HexOf(value / 16, width - 1) + [DigitChar(value % 16)]
  }

  /** The number a run of hexadecimal digits denotes. */
  function ValueOf(s: string): nat
    requires IsHex(s)
  {
    if s == "" then 0 else 16 * ValueOf(s[..|s| - 1]) + DigitOf(s[|s| - 1]).value
  }

  lemma {:induction false} HexOfIsHex(value: nat, width: nat)
    ensures IsLowerHex(HexOf(value, width)) && IsHex(HexOf(value, width))
  {
    if width > 0 {
      HexOfIsHex(value / 16, width - 1);
      DigitRoundTrip(value % 16);
    }
  }

  lemma {:induction false} ValueOfHexOf(value: nat, width: nat)
    requires value < Pow16(width)
    ensures IsHex(HexOf(value, width)) && ValueOf(HexOf(value, width)) == value
  {
    HexOfIsHex(value, width);
    if width > 0 {
      HexOfIsHex(value / 16, width - 1);
      DropBound(value, width);
      ValueOfHexOf(value / 16, width - 1);
      DigitRoundTrip(value % 16);
      ValueOfAppend(HexOf(value / 16, width - 1), DigitChar(value % 16));
      hide ValueOf;
      hide Pow16;
    }
  }

  lemma DropBound(value: nat, width: nat)
    requires width > 0 && value < Pow16(width)
    ensures value / 16 < Pow16(width - 1)
  {
    assert Pow16(width) == 16 * Pow16(width - 1);
  }

  /** The number a digit character denotes is written with that character, in lower case. */
  lemma DigitWritten(c: char)
    requires DigitOf(c).Some? && !('A' <= c <= 'F')
    ensures DigitChar(DigitOf(c).value) == c
  {
  }

  /** Writing what lower-case digits denote gives the digits back. */
  lemma {:induction false} HexOfValueOf(s: string)
    requires IsLowerHex(s)
    ensures IsHex(s) && HexOf(ValueOf(s), |s|) == s && ValueOf(s) < Pow16(|s|)
  {
    if s != "" {
      var front, last := s[..|s| - 1], s[|s| - 1];
      HexOfValueOf(front);
      DigitWritten(last);
      assert ValueOf(s) / 16 == ValueOf(front) && ValueOf(s) % 16 == DigitOf(last).value;
      assert s == front + [last];
    }
  }

  function Zeros(n: nat): (r: string)
    ensures |r| == n
  {
    seq(n, i => '0')
  }

  /** Digits beyond those a value needs are leading zeros. */
  lemma {:induction false} HexOfPads(value: nat, extra: nat, width: nat)
    requires value < Pow16(width)
    ensures HexOf(value, extra + width) == Zeros(extra) + HexOf(value, width)
  {
    if width > 0 {
      HexOfPads(value / 16, extra, width - 1);
    } else if extra > 0 {
      HexOfPads(0, extra - 1, 0);
      assert Zeros(extra) == Zeros(extra - 1) + "0";
    }
  }

  lemma DropDigit(h: nat, low: nat)
    ensures (16 * h + low) / 16 == h + low / 16 && (16 * h + low) % 16 == low % 16
  {
  }

  lemma {:induction false} LowDigit(high: nat, low: nat, b: nat)
    requires b > 0 && low < Pow16(b)
    ensures
      var value := high * Pow16(b) + low;
      && value / 16 == high * Pow16(b - 1) + low / 16 && value % 16 == low % 16
      && low / 16 < Pow16(b - 1)
  {
    var p := Pow16(b - 1);
    assert high * Pow16(b) == 16 * (high * p) by { Distribute(high, p, 0); }
    DropDigit(high * p, low);
  }

  lemma NoDigits(high: nat, low: nat)
    ensures high * Pow16(0) + low == high + low && HexOf(low, 0) == "" && (low < Pow16(0) ==> low == 0)
  {
  }

  lemma {:induction false} HexOfLast(value: nat, width: nat)
    requires width > 0
    ensures HexOf(value, width) == HexOf(value / 16, width - 1) + [DigitChar(value % 16)]
  {
  }

  /** Splitting a number's digits at a power of sixteen. */
  lemma {:induction false} HexOfSplit(high: nat, low: nat, a: nat, b: nat)
    requires low < Pow16(b)
    ensures HexOf(high * Pow16(b) + low, a + b) == HexOf(high, a) + HexOf(low, b)
  {
    hide HexOf;
    hide Pow16;
    hide DigitChar;
    if b == 0 {
      NoDigits(high, low);
    } else {
      LowDigit(high, low, b);
      HexOfSplit(high, low / 16, a, b - 1);
      HexOfLast(high * Pow16(b) + low, a + b);
      HexOfLast(low, b);
    }
  }

  // ----- Parsing -----

  function Trim0x(s: string): string
  {
    if |s| >= 2 && s[..2] == "0x" then Trim0x(s[2..]) else s
  }

  function TrimZeros(s: string): string
  {
    if s != "" && s[0] == '0' then TrimZeros(s[1..]) else s
  }

  /** `from_str_radix(s, 16)` into an unsigned type of `width` hexadecimal digits; a leading plus is allowed. */
  function FromStrRadix16(s: string, width: nat): Result<nat>
  {
    var digits := if s != "" && s[0] == '+' then s[1..] else s;
    if digits == "" || !IsHex(digits) then Err
    else if ValueOf(digits) >= Pow16(width) then Err
    else Ok(ValueOf(digits))
  }

  /** `parse_u64_hex` for width 16, `parse_u128_hex` for width 32. */
  function ParseHex(s: string, width: nat): Result<nat>
  {
    var trimmed := Trim0x(s);
    if trimmed == "" then Err else
    var normalized := TrimZeros(trimmed);
    if normalized == "" then Ok(0)
    else if |normalized| > width then Err
    else FromStrRadix16(normalized, width)
  }

  function ParseU64(s: string): Result<nat> { ParseHex(s, 16) }

  function ParseU128(s: string): Result<nat> { ParseHex(s, 32) }

  function ParseU8(s: string): Result<nat>
  {
    var parsed :- ParseU64(s);
    if parsed > 255 then Err else Ok(parsed)
  }

  function ParseBool(s: string): Result<bool>
  {
    var parsed :- ParseU64(s);
    Ok(parsed != 0)
  }

  lemma {:induction false} TrimZerosPadded(n: nat, s: string)
    ensures TrimZeros(Zeros(n) + s) == TrimZeros(s)
  {
    if n > 0 {
      assert (Zeros(n) + s)[1..] == Zeros(n - 1) + s;
      TrimZerosPadded(n - 1, s);
    } else {
      assert Zeros(0) + s == s;
    }
  }

  lemma ValueOfAppend(s: string, c: char)
    requires IsHex(s) && DigitOf(c).Some?
    ensures IsHex(s + [c]) && ValueOf(s + [c]) == 16 * ValueOf(s) + DigitOf(c).value
  {
    assert (s + [c])[..|s|] == s;
  }

  lemma Distribute(a: int, p: int, v: int)
    ensures 16 * (a * p + v) == a * (16 * p) + 16 * v
  {
  }

  lemma {:induction false} ValueOfPrepend(c: char, s: string)
    requires DigitOf(c).Some? && IsHex(s)
    ensures IsHex([c] + s) && ValueOf([c] + s) == DigitOf(c).value * Pow16(|s|) + ValueOf(s)
  {
    if s == "" {
      ValueOfAppend("", c);
      assert [c] + s == "" + [c];
    } else {
      hide DigitOf;
      var front, last := s[..|s| - 1], s[|s| - 1];
      ValueOfPrepend(c, front);
      ValueOfAppend([c] + front, last);
      assert [c] + s == ([c] + front) + [last];
      Distribute(DigitOf(c).value, Pow16(|front|), ValueOf(front));
    }
  }

  lemma {:induction false} TrimZerosKeepsValue(s: string)
    requires IsHex(s)
    ensures IsHex(TrimZeros(s)) && ValueOf(TrimZeros(s)) == ValueOf(s)
    ensures |TrimZeros(s)| <= |s| && (TrimZeros(s) != "" ==> TrimZeros(s)[0] != '0')
  {
    if s != "" && s[0] == '0' {
      assert s == [s[0]] + s[1..];
      ValueOfPrepend(s[0], s[1..]);
      TrimZerosKeepsValue(s[1..]);
    }
  }

  lemma HexHasNoPrefix(s: string)
    requires IsHex(s)
    ensures Trim0x(s) == s
  {
    if |s| >= 2 {
      assert s[..2][1] == s[1];
    }
  }

  lemma FromStrRadixHex(s: string, width: nat)
    requires s != "" && IsHex(s) && ValueOf(s) < Pow16(width)
    ensures FromStrRadix16(s, width) == Ok(ValueOf(s))
  {
    hide ValueOf;
    hide Pow16;
    assert DigitOf(s[0]).Some?;
  }

  lemma ParseHexDigits(s: string, width: nat)
    requires s != "" && IsHex(s) && |TrimZeros(s)| <= width && ValueOf(s) < Pow16(width)
    ensures ParseHex(s, width) == Ok(ValueOf(s))
  {
    HexHasNoPrefix(s);
    TrimZerosKeepsValue(s);
    hide DigitOf;
    hide Pow16;
    hide Trim0x;
    if TrimZeros(s) != "" {
      FromStrRadixHex(TrimZeros(s), width);
    }
  }

  /** A zero-padded word parses back to its number when the number fits the parsed width. */
  lemma ParseHexWord(value: nat, total: nat, width: nat)
    requires value < Pow16(width) && 0 < width <= total
    ensures ParseHex(HexOf(value, total), width) == Ok(value)
  {
    hide *;
    HexOfPads(value, total - width, width);
    HexOfIsHex(value, total);
    Pow16Grows(width, total);
    ValueOfHexOf(value, total);
    HexOfIsHex(value, width);
    TrimZerosPadded(total - width, HexOf(value, width));
    TrimZerosKeepsValue(HexOf(value, width));
    ParseHexDigits(HexOf(value, total), width);
  }

  lemma Pow16Grows(a: nat, b: nat)
    requires a <= b
    ensures Pow16(a) <= Pow16(b)
  {
  }

  lemma Associate(a: string, b: string, c: string)
    ensures (a + b) + c == a + (b + c)
  {
  }

  // ----- Bytes -----

  /** `hex::encode` */
  function HexBytes(bytes: seq<byte>): (r: string)
    ensures |r| == 2 * |bytes|
  {
    if bytes == [] then "" else HexBytes(bytes[..|bytes| - 1]) + HexOf(bytes[|bytes| - 1], 2)
  }

  /** `hex::decode` */
  function FromHexBytes(s: string): Result<seq<byte>>
  {
    if s == "" then Ok([])
    else if |s| % 2 == 1 then Err
    else
      var n := |s| - 2;
      var before :- FromHexBytes(s[..n]);
      if DigitOf(s[n]).None? || DigitOf(s[n + 1]).None? then Err
      else Ok(before + [16 * DigitOf(s[n]).value + DigitOf(s[n + 1]).value])
  }

  lemma TwoDigits(b: byte)
    ensures HexOf(b, 2) == [DigitChar(b / 16), DigitChar(b % 16)]
  {
    assert HexOf(b / 16, 1) == HexOf(b / 16 / 16, 0) + [DigitChar(b / 16 % 16)];
  }

  lemma {:induction false} ByteDigits(b: byte)
    ensures
      var s := HexOf(b, 2);
      && DigitOf(s[0]).Some? && DigitOf(s[1]).Some?
      && 16 * DigitOf(s[0]).value + DigitOf(s[1]).value == b
  {
    TwoDigits(b);
    DigitRoundTrip(b / 16);
    DigitRoundTrip(b % 16);
  }

  lemma FromHexBytesAppend(s: string, t: string)
    requires |s| % 2 == 0 && |t| == 2
    ensures FromHexBytes(s + t) ==
      if FromHexBytes(s).Err? || DigitOf(t[0]).None? || DigitOf(t[1]).None? then Err
      else Ok(FromHexBytes(s).value + [16 * DigitOf(t[0]).value + DigitOf(t[1]).value])
  {
    hide DigitOf;
    assert (s + t)[..|s|] == s;
  }

  lemma HexBytesLast(front: seq<byte>, last: byte)
    ensures HexBytes(front + [last]) == HexBytes(front) + HexOf(last, 2)
  {
    hide HexOf;
    assert (front + [last])[..|front|] == front;
  }

  lemma FromHexBytesStep(front: seq<byte>, last: byte)
    requires FromHexBytes(HexBytes(front)) == Ok(front)
    ensures FromHexBytes(HexBytes(front + [last])) == Ok(front + [last])
  {
    hide *;
    HexBytesLast(front, last);
    ByteDigits(last);
    FromHexBytesAppend(HexBytes(front), HexOf(last, 2));
  }

  lemma NoBytes()
    ensures HexBytes([]) == "" && FromHexBytes("") == Ok([])
  {
  }

  lemma {:induction false} FromHexBytesRoundTrip(bytes: seq<byte>)
    ensures FromHexBytes(HexBytes(bytes)) == Ok(bytes)
  {
    hide FromHexBytes;
    hide HexBytes;
    if bytes == [] {
      NoBytes();
    } else {
      FromHexBytesRoundTrip(bytes[..|bytes| - 1]);
      FromHexBytesStep(bytes[..|bytes| - 1], bytes[|bytes| - 1]);
      assert bytes == bytes[..|bytes| - 1] + [bytes[|bytes| - 1]];
    }
  }

  /** `to_be_bytes` of an unsigned number of `n` bytes. */
  function BigEndian(value: nat, n: nat): (r: seq<byte>)
    ensures |r| == n
  {
    if n == 0 then [] else BigEndian(value / 256, n - 1) + [value % 256]
  }

  lemma HexOfLastByte(value: nat, width: nat)
    ensures HexOf(value, width + 2) == HexOf(value / 256, width) + HexOf(value % 256, 2)
  {
    hide HexOf;
    hide Pow16;
    Pow16Values();
    HexOfSplit(value / 256, value % 256, width, 2);
  }

  /** Printing the bytes one by one prints the number. */
  lemma {:induction false} HexOfBigEndian(value: nat, n: nat)
    ensures HexBytes(BigEndian(value, n)) == HexOf(value, 2 * n)
  {
    if n > 0 {
      hide HexBytes;
      hide HexOf;
      HexOfBigEndian(value / 256, n - 1);
      HexBytesLast(BigEndian(value / 256, n - 1), value % 256);
      HexOfLastByte(value, 2 * n - 2);
    }
  }

  lemma {:induction false} HexBytesAppend(a: seq<byte>, b: seq<byte>)
    ensures HexBytes(a + b) == HexBytes(a) + HexBytes(b)
  {
    if b == [] {
      assert a + b == a;
    } else {
      hide HexBytes;
      var front, last := b[..|b| - 1], b[|b| - 1];
      HexBytesAppend(a, front);
      assert a + b == (a + front) + [last] && b == front + [last];
      HexBytesLast(a + front, last);
      HexBytesLast(front, last);
      Associate(HexBytes(a), HexBytes(front), HexOf(last, 2));
    }
  }
}
