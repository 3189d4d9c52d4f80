/**
 * Text produced by the tester: the lowercase hexadecimal dump of a field's bytes
 * (`bytesToHex`) and the decimal rendering of integers that Java's string
 * concatenation performs inside the diagnostic messages.
 */
module Formatting {
  import opened Wrappers
  import opened Hla

  // ---------------------------------------------------------------------------
  // Hexadecimal
  // ---------------------------------------------------------------------------

  /** `%x` applied to a negative Java byte formats the value plus 2^8. */
  function Unsigned(b: JByte): (u: nat)
    ensures u < 256
    ensures u % 256 == (b as int) % 256
  {
    if b < 0 then b as int + 256 else b as int
  }

  /** The Java byte whose unsigned reading is `u`. */
  function Signed(u: nat): (b: JByte)
    requires u < 256
    ensures Unsigned(b) == u
  {
    if u >= 128 then (u - 256) as JByte else u as JByte
  }

  predicate IsLowerHexDigit(c: char) {
    '0' <= c <= '9' || 'a' <= c <= 'f'
  }

  /** The lowercase hex digit for a value below 16. */
  function HexDigit(d: nat): (c: char)
    requires d < 16
    ensures IsLowerHexDigit(c)
  {
    if d < 10 then ('0' as int + d) as char else ('a' as int + d - 10) as char
  }

  /** The value of a lowercase hex digit; None for any other character. */
  function DigitValue(c: char): (d: Option<nat>)
    ensures d.Some? <==> IsLowerHexDigit(c)
    ensures d.Some? ==> d.value < 16 && HexDigit(d.value) == c
  {
    if '0' <= c <= '9' then Some(c as int - '0' as int)
    else if 'a' <= c <= 'f' then Some(c as int - 'a' as int + 10)
    else None
  }

  /** `String.format("%02x", b)`: exactly two digits, high nibble first. */
  function HexPair(b: JByte): (s: string)
    ensures |s| == 2
    ensures DigitValue(s[0]).Some? && DigitValue(s[1]).Some?
    ensures DigitValue(s[0]).value * 16 + DigitValue(s[1]).value == Unsigned(b)
  {
    var u := Unsigned(b);
    [HexDigit(u / 16), HexDigit(u % 16)]
  }

  /** The hex dump of a byte array: one digit pair per byte, in order. */
  function HexOf(bs: seq<JByte>): (s: string)
    ensures |s| == 2 * |bs|
    ensures forall k :: 0 <= k < |s| ==> IsLowerHexDigit(s[k])
    decreases |bs|
  {
    if bs == [] then "" else HexOf(bs[..|bs| - 1]) + HexPair(bs[|bs| - 1])
  }

  /** Byte `i` of the input occupies characters `2i` and `2i+1` of the dump. */
  lemma {:induction false} HexOfAt(bs: seq<JByte>, i: nat)
    requires i < |bs|
    ensures HexOf(bs)[2 * i] == HexDigit(Unsigned(bs[i]) / 16)
    ensures HexOf(bs)[2 * i + 1] == HexDigit(Unsigned(bs[i]) % 16)
    decreases |bs|
  {
    var n := |bs| - 1;
    if i < n {
      HexOfAt(bs[..n], i);
    }
  }

  /** Reads a hex dump back into bytes; None unless it is pairs of lowercase hex digits. */
  function DecodeHex(s: string): (r: Option<seq<JByte>>)
    ensures r.Some? ==> 2 * |r.value| == |s|
    decreases |s|
  {
    if |s| == 0 then Some([])
    else if |s| == 1 then None
    else
      match DecodeHex(s[..|s| - 2])
      case None => None
      case Some(prefix) =>
        match (DigitValue(s[|s| - 2]), DigitValue(s[|s| - 1]))
        case (Some(hi), Some(lo)) => Some(prefix + [Signed(hi * 16 + lo)])
        case _ => None
  }

  /** A digit pair read back gives the value it was written from. */
  lemma PairOfValue(u: nat)
    requires u < 256
    ensures u / 16 < 16 && u % 16 < 16
    ensures DigitValue(HexDigit(u / 16)) == Some(u / 16)
    ensures DigitValue(HexDigit(u % 16)) == Some(u % 16)
    ensures u / 16 * 16 + u % 16 == u
  {
  }

  /** The value a digit pair denotes is written back as that pair. */
  lemma ValueOfPair(hi: nat, lo: nat)
    requires hi < 16 && lo < 16
    ensures hi * 16 + lo < 256
    ensures (hi * 16 + lo) / 16 == hi && (hi * 16 + lo) % 16 == lo
  {
  }

  /** Decoding a dump extended by two characters reads those two characters as one more byte. */
  lemma DecodeLastPair(front: string, pair: string)
    requires |pair| == 2 && DecodeHex(front).Some?
    ensures DecodeHex(front + pair) ==
              if DigitValue(pair[0]).Some? && DigitValue(pair[1]).Some?
              then Some(DecodeHex(front).value + [Signed(DigitValue(pair[0]).value * 16 + DigitValue(pair[1]).value)])
              else None
  {
    var s := front + pair;
    assert s[..|s| - 2] == front;
    assert s[|s| - 2] == pair[0];
    assert s[|s| - 1] == pair[1];
  }

  /** Appending the digit pair of one byte to a decodable dump appends that byte. */
  lemma DecodeHexSnoc(front: string, b: JByte)
    requires DecodeHex(front).Some?
    ensures DecodeHex(front + HexPair(b)) == Some(DecodeHex(front).value + [b])
  {
    var u := Unsigned(b);
    PairOfValue(u);
    DecodeLastPair(front, HexPair(b));
    assert Signed(u) == b;
  }

  /** Decoding the dump gives back the original bytes. */
  lemma {:induction false} DecodeHexOf(bs: seq<JByte>)
    ensures DecodeHex(HexOf(bs)) == Some(bs)
    decreases |bs|
  {
    if bs != [] {
      var n := |bs| - 1;
      DecodeHexOf(bs[..n]);
      assert HexOf(bs) == HexOf(bs[..n]) + HexPair(bs[n]);
      DecodeHexSnoc(HexOf(bs[..n]), bs[n]);
      assert bs[..n] + [bs[n]] == bs;
    }
  }

  /** The byte a digit pair denotes is written back as that pair. */
  lemma HexPairOfSigned(hi: nat, lo: nat)
    requires hi < 16 && lo < 16
    ensures HexPair(Signed(hi * 16 + lo)) == [HexDigit(hi), HexDigit(lo)]
  {
    ValueOfPair(hi, lo);
  }

  /** The last byte of a decoded dump comes from the dump's last digit pair. */
  lemma DecodeHexLast(s: string)
    requires |s| > 0 && DecodeHex(s).Some?
    ensures |s| >= 2 && DecodeHex(s[..|s| - 2]).Some?
    ensures var bs := DecodeHex(s).value;
              |bs| > 0 && bs[..|bs| - 1] == DecodeHex(s[..|s| - 2]).value &&
              HexPair(bs[|bs| - 1]) == s[|s| - 2..]
  {
    var hi := DigitValue(s[|s| - 2]).value;
    var lo := DigitValue(s[|s| - 1]).value;
    var bs := DecodeHex(s).value;
    assert bs == DecodeHex(s[..|s| - 2]).value + [Signed(hi * 16 + lo)];
    HexPairOfSigned(hi, lo);
  }

  /** Every string that decodes is the dump of what it decodes to. */
  lemma {:induction false} HexOfDecode(s: string)
    requires DecodeHex(s).Some?
    ensures HexOf(DecodeHex(s).value) == s
    decreases |s|
  {
    if |s| > 0 {
      DecodeHexLast(s);
      var front, pair := s[..|s| - 2], s[|s| - 2..];
      HexOfDecode(front);
      var bs := DecodeHex(s).value;
      var n := |bs| - 1;
      assert HexOf(bs) == HexOf(bs[..n]) + HexPair(bs[n]);
      assert HexOf(bs) == front + pair;
      assert front + pair == s;
    }
  }

  /** Every even-length string of lowercase hex digits decodes. */
  lemma {:induction false} EvenHexDecodes(s: string)
    requires |s| % 2 == 0
    requires forall k :: 0 <= k < |s| ==> IsLowerHexDigit(s[k])
    ensures DecodeHex(s).Some?
    decreases |s|
  {
    if |s| > 0 {
      EvenHexDecodes(s[..|s| - 2]);
    }
  }

  /** The loop of `bytesToHex`: appends the two-digit form of each byte. */
  method BytesToHex(input: seq<JByte>) returns (s: string)
    ensures s == HexOf(input)
  {
    s := "";
    var i := 0;
    while i < |input|
      invariant 0 <= i <= |input|
      invariant s == HexOf(input[..i])
    {
      assert input[..i + 1][..i] == input[..i];
      s := s + HexPair(input[i]);
      i := i + 1;
    }
    assert input[..|input|] == input;
  }

  // ---------------------------------------------------------------------------
  // Decimal (Java's int-to-String conversion inside string concatenation)
  // ---------------------------------------------------------------------------

  predicate IsDecimalDigit(c: char) {
    '0' <= c <= '9'
  }

  function NatToDecimal(n: nat): (s: string)
    ensures |s| >= 1
    ensures forall k :: 0 <= k < |s| ==> IsDecimalDigit(s[k])
    decreases n
  {
    if n < 10 then [('0' as int + n) as char]
    else NatToDecimal(n / 10) + [('0' as int + n % 10) as char]
  }

  /** The number a string of decimal digits denotes. */
  function DecimalValue(s: string): nat
    requires forall k :: 0 <= k < |s| ==> IsDecimalDigit(s[k])
    decreases |s|
  {
    if s == [] then 0
    else
      assert IsDecimalDigit(s[|s| - 1]);
      DecimalValue(s[..|s| - 1]) * 10 + (s[|s| - 1] as int - '0' as int)
  }

  /** The decimal text of a number reads back as that number. */
  lemma {:induction false} DecimalRoundTrip(n: nat)
    ensures DecimalValue(NatToDecimal(n)) == n
    decreases n
  {
    if n >= 10 {
      DecimalRoundTrip(n / 10);
      var s := NatToDecimal(n);
      assert s[..|s| - 1] == NatToDecimal(n / 10);
    }
  }

  /**
   * `Integer.toString`: a minus sign exactly for negative numbers, then the
   * digits of the magnitude.
   */
  function IntToDecimal(n: int): (s: string)
    ensures |s| >= 1
    ensures s[0] == '-' <==> n < 0
    ensures n >= 0 ==> IsDecimalDigit(s[0])
    ensures forall k :: 0 < k < |s| ==> IsDecimalDigit(s[k])
    ensures n < 0 ==> DecimalValue(s[1..]) == -n
    ensures n >= 0 ==> DecimalValue(s) == n
  {
    if n < 0 then
      DecimalRoundTrip(-n);
      assert ("-" + NatToDecimal(-n))[1..] == NatToDecimal(-n);
      "-" + NatToDecimal(-n)
    else
      DecimalRoundTrip(n);
      NatToDecimal(n)
  }
}
