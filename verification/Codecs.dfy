/**
 The byte codecs of the telemetry tab: hexadecimal text, and the temperature and meter templates with the decoders
 that plot them. JavaScript shifts and masks work on 32-bit two's complement values.
 */
module Codecs {
  import opened Prelude
  import DeviceModel

  // ----- hexadecimal -----

  predicate IsHex(c: char) {
    '0' <= c <= '9' || 'a' <= c <= 'f' || 'A' <= c <= 'F'
  }

  predicate AllHex(s: string) {
    forall i | 0 <= i < |s| :: IsHex(s[i])
  }

  function HexValue(c: char): (v: nat)
    requires IsHex(c)
    ensures v < 16
  {
    if c <= '9' then (c - '0') as int
    else if c <= 'F' then (c - 'A') as int + 10
    else (c - 'a') as int + 10
  }

  function HexDigit(v: nat): (c: char)
    requires v < 16
    ensures IsHex(c) && HexValue(c) == v
  {
    if v < 10 then '0' + v as char else 'A' + (v - 10) as char
  }

  /** A digit stands at its value's place in the usual alphabet, in either case; upper case is written. */
  lemma HexAlphabet(c: char, v: nat)
    requires v < 16
    ensures IsHex(c) && HexValue(c) == v <==> c == "0123456789ABCDEF"[v] || c == "0123456789abcdef"[v]
    ensures HexDigit(v) == "0123456789ABCDEF"[v]
  {
  }

  function Upper(c: char): char {
    if 'a' <= c <= 'f' then c - 'a' + 'A' else c
  }

  function Uppercase(s: string): (r: string)
    ensures |r| == |s| && forall i | 0 <= i < |s| :: r[i] == Upper(s[i])
  {
    seq(|s|, i requires 0 <= i < |s| => Upper(s[i]))
  }

  /** What parseInt may return. */
  datatype Number = NaN | Num(value: int)

  /** `n & 0xFF`. */
  function LowOctet(n: Number): byte {
    if n == NaN then 0 else n.value % 0x100
  }

  function Numbers(bytes: seq<byte>): (r: seq<Number>)
    ensures |r| == |bytes| && forall i | 0 <= i < |r| :: r[i] == Num(bytes[i])
  {
    seq(|bytes|, i requires 0 <= i < |bytes| => Num(bytes[i]))
  }

  /** The digits of the octets, two each, joined. */
  function BytesToHex(bytes: seq<Number>): (r: string)
    ensures |r| == 2 * |bytes| && AllHex(r)
  {
    seq(2 * |bytes|, i requires 0 <= i < 2 * |bytes| =>
      var b := LowOctet(bytes[i / 2]); HexDigit(if i % 2 == 0 then b / 16 else b % 16))
  }

  predicate IsSpace(c: char) {
    || '\U{9}' <= c <= '\r' || c == ' ' || c == '\U{A0}' || c == '\U{1680}' || '\U{2000}' <= c <= '\U{200A}'
    || c == '\U{2028}' || c == '\U{2029}' || c == '\U{202F}' || c == '\U{205F}' || c == '\U{3000}' || c == '\U{FEFF}'
  }

  /** JavaScript's white space and line terminators by their numbers; U+0085 is not one of them. */
  lemma SpacesByNumber(c: char)
    ensures IsSpace(c) <==> var n := c as int;
                            || n in {9, 10, 11, 12, 13, 32, 0xA0, 0x1680, 0x2028, 0x2029, 0x202F, 0x205F, 0x3000, 0xFEFF}
                            || 0x2000 <= n <= 0x200A
  {
  }

  /**
   parseInt in base sixteen of one or two characters: space or a sign may come first, what follows the digits is
   ignored, and 0x alone is a prefix without digits.
   */
  function ParseInt16(s: string): Number
    requires 1 <= |s| <= 2
  {
    if IsHex(s[0]) then
      if |s| == 1 then Num(HexValue(s[0]))
      else if IsHex(s[1]) then Num(16 * HexValue(s[0]) + HexValue(s[1]))
      else if s[0] == '0' && (s[1] == 'x' || s[1] == 'X') then NaN
      else Num(HexValue(s[0]))
    else if |s| == 2 && IsHex(s[1]) then
      if s[0] == '-' then Num(-(HexValue(s[1]) as int))
      else if s[0] == '+' || IsSpace(s[0]) then Num(HexValue(s[1]))
      else NaN
    else NaN
  }

  function SkipSpace(s: string): string {
    if s != "" && IsSpace(s[0]) then SkipSpace(s[1..]) else s
  }

  /** The digits at the beginning of `s`. */
  function HexPrefix(s: string): (d: string)
    ensures AllHex(d)
  {
    if s != "" && IsHex(s[0]) then [s[0]] + HexPrefix(s[1..]) else ""
  }

  function HexNumber(d: string): nat
    requires AllHex(d)
  {
    if d == "" then 0 else 16 * HexNumber(d[..|d| - 1]) + HexValue(d[|d| - 1])
  }

  /** What follows the sign: perhaps the prefix 0x, and then as many digits as there are. */
  function ParseUnsigned(u: string): Number {
    var digits := HexPrefix(if |u| >= 2 && u[0] == '0' && (u[1] == 'x' || u[1] == 'X') then u[2..] else u);
    if digits == "" then NaN else Num(HexNumber(digits))
  }

  /** parseInt(s, 16) of any string: white space, a sign, and an unsigned number. */
  function ParseInt(s: string): Number {
    var t := SkipSpace(s);
    if t != "" && t[0] == '+' then ParseUnsigned(t[1..])
    else if t != "" && t[0] == '-' then
      var n := ParseUnsigned(t[1..]); if n.Num? then Num(-n.value) else NaN
    else ParseUnsigned(t)
  }

  lemma OneDigit(c: char, s: string)
    requires IsHex(c) && (s == "" || !IsHex(s[0]))
    ensures HexPrefix([c] + s) == [c] && HexNumber([c]) == HexValue(c)
  {
    assert ([c] + s)[1..] == s && [c][..0] == "";
  }

  lemma TwoDigits(c: char, d: char)
    requires IsHex(c) && IsHex(d)
    ensures HexPrefix([c, d]) == [c, d] && HexNumber([c, d]) == 16 * HexValue(c) + HexValue(d)
  {
    OneDigit(d, "");
    OneDigit(c, "");
    assert [c, d][1..] == [d] + "" && [c, d][..1] == [c];
  }

  lemma ParsesOne(c: char)
    ensures ParseUnsigned([c]) == if IsHex(c) then Num(HexValue(c)) else NaN
  {
    if IsHex(c) {
      OneDigit(c, "");
      assert [c] + "" == [c];
    }
  }

  lemma ParsesTwo(c: char, d: char)
    ensures ParseUnsigned([c, d])
         == if IsHex(c) && IsHex(d) then Num(16 * HexValue(c) + HexValue(d))
            else if IsHex(c) && !(c == '0' && (d == 'x' || d == 'X')) then Num(HexValue(c))
            else NaN
  {
    if IsHex(c) && IsHex(d) {
      TwoDigits(c, d);
    } else if IsHex(c) {
      OneDigit(c, [d]);
      assert [c] + [d] == [c, d] && [c, d][2..] == "";
    }
  }

  lemma SpaceSkipped(c: char, d: char)
    ensures SkipSpace([c]) == if IsSpace(c) then "" else [c]
    ensures SkipSpace([c, d]) == if !IsSpace(c) then [c, d] else if IsSpace(d) then "" else [d]
  {
    assert [c, d][1..] == [d] && [c][1..] == "" && [d][1..] == "";
  }

  lemma ParsesLong(c: char, d: char)
    ensures ParseInt16([c, d]) == ParseInt([c, d])
  {
    SpaceSkipped(c, d);
    ParsesOne(d);
    ParsesTwo(c, d);
    assert [c, d][1..] == [d] && [d][1..] == "";
  }

  lemma ParsesShort(c: char)
    ensures ParseInt16([c]) == ParseInt([c])
  {
    SpaceSkipped(c, c);
    ParsesOne(c);
    assert [c][1..] == "";
  }

  /** On one or two characters the short form is parseInt. */
  lemma ParsesAsParseInt(s: string)
    requires 1 <= |s| <= 2
    ensures ParseInt16(s) == ParseInt(s)
  {
    if |s| == 1 {
      ParsesShort(s[0]);
      assert s == [s[0]];
    } else {
      ParsesLong(s[0], s[1]);
      assert s == [s[0], s[1]];
    }
  }

  /** The text is read in pairs from the left, each as parseInt reads it. */
  lemma PairsAreParsed(s: string, i: nat)
    requires 2 * i < |s|
    ensures Pairs(s)[i] == ParseInt(s[2 * i..if 2 * i + 2 <= |s| then 2 * i + 2 else |s|])
  {
    ParsesAsParseInt(Chunk(s, i));
  }

  /** `s.substr(2 * i, 2)`. */
  function Chunk(s: string, i: nat): (r: string)
    requires 2 * i < |s|
    ensures 1 <= |r| <= 2 && (AllHex(s) ==> AllHex(r))
  {
    s[2 * i..if 2 * i + 2 <= |s| then 2 * i + 2 else |s|]
  }

  /** The numbers of the pairs, an odd character at the end standing alone. */
  function Pairs(s: string): (r: seq<Number>)
    ensures |r| == (|s| + 1) / 2
  {
    seq((|s| + 1) / 2, i requires 0 <= i < (|s| + 1) / 2 => ParseInt16(Chunk(s, i)))
  }

  method HexToBytes(hex: string) returns (bytes: seq<Number>)
    ensures bytes == Pairs(hex)
  {
    bytes := [];
    var c := 0;
    while c < |hex|
      invariant c == 2 * |bytes| <= |hex| + 1
      invariant forall k | 0 <= k < |bytes| :: bytes[k] == ParseInt16(Chunk(hex, k))
    {
      bytes := bytes + [ParseInt16(hex[c..if c + 2 <= |hex| then c + 2 else |hex|])];
      c := c + 2;
    }
  }

  /** A script's text is stripped of everything that is not a digit. */
  function KeepHex(s: string): (r: string)
    ensures AllHex(r)
    ensures AllHex(s) ==> r == s
  {
    if s == "" then ""
    else if IsHex(s[0]) then [s[0]] + KeepHex(s[1..])
    else KeepHex(s[1..])
  }

  /** The filter looks at each character by itself: a digit stays, any other goes. */
  lemma {:induction false} KeepsEachDigit(s: string, t: string)
    ensures KeepHex(s + t) == KeepHex(s) + KeepHex(t)
    ensures |s| == 1 ==> KeepHex(s) == if '0' <= s[0] <= '9' || 'a' <= s[0] <= 'f' || 'A' <= s[0] <= 'F' then s else ""
  {
    if s == "" {
      assert s + t == t;
    } else {
      assert (s + t)[1..] == s[1..] + t;
      KeepsEachDigit(s[1..], t);
    }
  }

  /** The octets of a script that returned text: its digits in pairs, never a NaN. */
  method BytesOfText(text: string) returns (bytes: seq<Number>)
    ensures bytes == Pairs(KeepHex(text))
    ensures forall i | 0 <= i < |bytes| :: bytes[i].Num? && 0 <= bytes[i].value < 0x100
    ensures BytesToHex(bytes) == Uppercase(KeepHex(text)) <==> |KeepHex(text)| % 2 == 0
  {
    bytes := HexToBytes(KeepHex(text));
    HexPairs(KeepHex(text));
    TextRoundTrip(KeepHex(text));
  }

  lemma HexPairs(s: string)
    requires AllHex(s)
    ensures forall i | 0 <= i < |Pairs(s)| :: Pairs(s)[i].Num? && 0 <= Pairs(s)[i].value < 0x100
  {
    forall i | 0 <= i < |Pairs(s)| ensures Pairs(s)[i].Num? && 0 <= Pairs(s)[i].value < 0x100 {
    }
  }

  /** Whatever the numbers, their text reads back as their low octets. */
  lemma NumbersReadBack(bytes: seq<Number>)
    ensures |Pairs(BytesToHex(bytes))| == |bytes|
    ensures forall i | 0 <= i < |bytes| :: Pairs(BytesToHex(bytes))[i] == Num(LowOctet(bytes[i]))
  {
    var text := BytesToHex(bytes);
    forall i | 0 <= i < |bytes| ensures Pairs(text)[i] == Num(LowOctet(bytes[i])) {
      ReadBack(text, i, LowOctet(bytes[i]));
    }
  }

  lemma ReadBack(text: string, i: nat, b: byte)
    requires 2 * i + 1 < |text| && text[2 * i] == HexDigit(b / 16) && text[2 * i + 1] == HexDigit(b % 16)
    ensures ParseInt16(Chunk(text, i)) == Num(b)
  {
    assert Chunk(text, i) == [HexDigit(b / 16), HexDigit(b % 16)];
  }

  /** Text made from octets reads back as those octets. */
  lemma BytesRoundTrip(bytes: seq<byte>)
    ensures Pairs(BytesToHex(Numbers(bytes))) == Numbers(bytes)
  {
    NumbersReadBack(Numbers(bytes));
    OctetsAreLow(bytes, Numbers(bytes), Pairs(BytesToHex(Numbers(bytes))));
  }

  lemma OctetsAreLow(bytes: seq<byte>, numbers: seq<Number>, read: seq<Number>)
    requires |numbers| == |bytes| == |read|
    requires forall i | 0 <= i < |bytes| :: numbers[i] == Num(bytes[i]) && read[i] == Num(LowOctet(numbers[i]))
    ensures read == numbers
  {
  }

  lemma DigitOfValue(c: char)
    requires IsHex(c)
    ensures HexDigit(HexValue(c)) == Upper(c)
  {
  }

  /** The octet read from a pair of digits is written as those digits in upper case. */
  lemma PairToHex(s: string, i: nat)
    requires 2 * i + 1 < |s| && AllHex(s)
    ensures var b := LowOctet(ParseInt16(Chunk(s, i)));
            HexDigit(b / 16) == Upper(s[2 * i]) && HexDigit(b % 16) == Upper(s[2 * i + 1])
  {
    DigitOfValue(s[2 * i]);
    DigitOfValue(s[2 * i + 1]);
    SplitOctet(HexValue(s[2 * i]), HexValue(s[2 * i + 1]));
  }

  lemma SplitOctet(h: nat, l: nat)
    requires h < 16 && l < 16
    ensures var b := (16 * h + l) % 0x100; b / 16 == h && b % 16 == l
  {
  }

  lemma EvenTextRoundTrip(s: string)
    requires AllHex(s) && |s| % 2 == 0
    ensures BytesToHex(Pairs(s)) == Uppercase(s)
  {
    forall i | 0 <= i < |s| ensures BytesToHex(Pairs(s))[i] == Uppercase(s)[i] {
      DigitRoundTrip(s, i);
    }
  }

  lemma DigitRoundTrip(s: string, i: nat)
    requires AllHex(s) && |s| % 2 == 0 && i < |s|
    ensures BytesToHex(Pairs(s))[i] == Upper(s[i])
  {
    PairToHex(s, i / 2);
    assert Pairs(s)[i / 2] == ParseInt16(Chunk(s, i / 2));
  }

  /** A text comes back, in upper case, exactly when it is an even number of digits. */
  lemma TextRoundTrip(s: string)
    ensures BytesToHex(Pairs(s)) == Uppercase(s) <==> AllHex(s) && |s| % 2 == 0
  {
    if AllHex(s) && |s| % 2 == 0 {
      EvenTextRoundTrip(s);
    } else if BytesToHex(Pairs(s)) == Uppercase(s) {
      UpperIsHex(s, Pairs(s));
      assert false;
    }
  }

  lemma UpperIsHex(s: string, bytes: seq<Number>)
    requires BytesToHex(bytes) == Uppercase(s)
    ensures AllHex(s) && |s| % 2 == 0
  {
    assert |s| == 2 * |bytes|;
    forall i | 0 <= i < |s| ensures IsHex(s[i]) {
      assert IsHex(Uppercase(s)[i]);
    }
  }

  // ----- 32-bit arithmetic -----

  /** ToInt32. */
  function Int32(v: int): (r: int)
    ensures -0x8000_0000 <= r < 0x8000_0000 && (r - v) % TWO32 == 0
  {
    (v + 0x8000_0000) % TWO32 - 0x8000_0000
  }

  /** `(v >> 8 * k) & 0xFF`. */
  function Octet(v: int, k: nat): byte
    requires k < 4
  {
    if k == 0 then Int32(v) % 0x100
    else if k == 1 then Int32(v) / 0x100 % 0x100
    else if k == 2 then Int32(v) / 0x1_0000 % 0x100
    else Int32(v) / 0x100_0000 % 0x100
  }

  /** Bitwise or of two bit patterns. */
  function Or(x: nat, y: nat): nat
    decreases x + y
  {
    if x + y == 0 then 0 else 2 * Or(x / 2, y / 2) + if x % 2 == 1 || y % 2 == 1 then 1 else 0
  }

  function Pow2(k: nat): nat {
    if k == 0 then 1 else 2 * Pow2(k - 1)
  }

  lemma {:induction false} OrZero(x: nat)
    ensures Or(x, 0) == x
  {
    if x > 0 {
      OrZero(x / 2);
    }
  }

  /** Patterns that share no bit are joined by adding them. */
  lemma {:induction false} OrIsSum(x: nat, y: nat, k: nat)
    requires exists q: nat :: x == Pow2(k) * q
    requires y < Pow2(k)
    ensures Or(x, y) == x + y
  {
    if k == 0 {
      OrZero(x);
    } else if x + y > 0 {
      var q: nat :| x == Pow2(k) * q;
      assert x == 2 * (Pow2(k - 1) * q);
      OrIsSum(x / 2, y / 2, k - 1);
    }
  }

  lemma PowersOfTwo()
    ensures Pow2(8) == 0x100 && Pow2(16) == 0x1_0000 && Pow2(24) == 0x100_0000
  {
    assert Pow2(4) == 16;
    assert Pow2(8) == 0x100;
    assert Pow2(12) == 0x1000;
    assert Pow2(16) == 0x1_0000;
    assert Pow2(20) == 0x10_0000;
  }

  /** `hi << 8 | lo`. */
  function Join2(hi: byte, lo: byte): nat {
    Or(0x100 * hi, lo)
  }

  /** The bit pattern of `a << 24 | b << 16 | c << 8 | d`. */
  function Join4(a: byte, b: byte, c: byte, d: byte): nat {
    Or(Or(Or(0x100_0000 * a, 0x1_0000 * b), 0x100 * c), d)
  }

  /** Or of a multiple of a power of two with a number below that power. */
  lemma OrShifted(p: nat, k: nat, q: nat, y: nat)
    requires p == Pow2(k) && y < p
    ensures Or(p * q, y) == p * q + y
  {
    OrIsSum(p * q, y, k);
  }

  lemma Join2IsSum(hi: byte, lo: byte)
    ensures Join2(hi, lo) == 0x100 * hi + lo
  {
    PowersOfTwo();
    OrShifted(0x100, 8, hi, lo);
  }

  lemma Join4IsSum(a: byte, b: byte, c: byte, d: byte)
    ensures Join4(a, b, c, d) == 0x100_0000 * a + 0x1_0000 * b + 0x100 * c + d
  {
    var x := Or(0x100_0000 * a, 0x1_0000 * b);
    JoinTop(a, b);
    var y := Or(x, 0x100 * c);
    JoinMiddle(x, 0x100 * a + b, c);
    JoinLast(y, 0x1_0000 * a + 0x100 * b + c, d);
  }

  lemma JoinTop(a: nat, b: byte)
    ensures Or(0x100_0000 * a, 0x1_0000 * b) == 0x100_0000 * a + 0x1_0000 * b
  {
    PowersOfTwo();
    OrShifted(0x100_0000, 24, a, 0x1_0000 * b);
  }

  lemma JoinMiddle(x: nat, q: nat, c: byte)
    requires x == 0x1_0000 * q
    ensures Or(x, 0x100 * c) == x + 0x100 * c
  {
    PowersOfTwo();
    OrShifted(0x1_0000, 16, q, 0x100 * c);
  }

  lemma JoinLast(x: nat, q: nat, d: byte)
    requires x == 0x100 * q
    ensures Or(x, d) == x + d
  {
    PowersOfTwo();
    OrShifted(0x100, 8, q, d);
  }

  // ----- temperature -----

  function EncodeTemperature(hundredths: int): seq<byte> {
    var t := if hundredths < 0 then 0xFFFF + hundredths + 1 else hundredths;
    [Octet(t, 1), Octet(t, 0)]
  }

  function DecodeTemperature(bytes: seq<byte>): int
    requires |bytes| >= 2
  {
    Signed16(Join2(bytes[0], bytes[1]))
  }

  function Signed16(v: int): int {
    if v / 0x8000 % 2 == 1 then v - 0x1_0000 else v
  }

  /** Decoding gives a temperature back exactly when it fits sixteen signed bits. */
  lemma TemperatureRoundTrip(hundredths: int)
    ensures DecodeTemperature(EncodeTemperature(hundredths)) == hundredths <==> -0x8000 <= hundredths < 0x8000
  {
    var t := if hundredths < 0 then 0xFFFF + hundredths + 1 else hundredths;
    LowOctets(t);
    Signed16Iff(hundredths, t);
    assert DecodeTemperature(EncodeTemperature(hundredths)) == Signed16(t % 0x1_0000);
  }

  /** The two octets are the sixteen-bit two's complement value, high octet first. */
  lemma TemperatureIsBigEndian(hundredths: int)
    ensures var b := EncodeTemperature(hundredths);
            |b| == 2 && 0x100 * (b[0] as int) + b[1] as int == hundredths % 0x1_0000
  {
    var t := if hundredths < 0 then 0xFFFF + hundredths + 1 else hundredths;
    LowOctetSum(t);
    SameLow(t, hundredths);
  }

  lemma LowOctetSum(t: int)
    ensures 0x100 * (Octet(t, 1) as int) + Octet(t, 0) as int == t % 0x1_0000
  {
    LowSum(t, Int32(t));
  }

  lemma SameLow(t: int, v: int)
    requires t == v || t == v + 0x1_0000
    ensures t % 0x1_0000 == v % 0x1_0000
  {
  }

  lemma Signed16Iff(hundredths: int, t: int)
    requires t == if hundredths < 0 then 0xFFFF + hundredths + 1 else hundredths
    ensures Signed16(t % 0x1_0000) == hundredths <==> -0x8000 <= hundredths < 0x8000
  {
    assert (t - hundredths) % 0x1_0000 == 0;
  }

  lemma LowOctets(t: int)
    ensures Join2(Octet(t, 1), Octet(t, 0)) == t % 0x1_0000
  {
    Join2IsSum(Octet(t, 1), Octet(t, 0));
    LowSum(t, Int32(t));
  }

  lemma LowSum(t: int, w: int)
    requires (w - t) % TWO32 == 0
    ensures 0x100 * (w / 0x100 % 0x100) + w % 0x100 == t % 0x1_0000
  {
    Congruent(t, w, w / 0x100, w / 0x100 / 0x100);
  }

  /** Splitting off the two low octets of a number that agrees with `t` modulo 2^32. */
  lemma Congruent(t: int, w: int, a: int, b: int)
    requires (w - t) % TWO32 == 0 && a == w / 0x100 && b == a / 0x100
    ensures 0x100 * (a % 0x100) + w % 0x100 == t % 0x1_0000
  {
    var q, low := (w - t) / TWO32, 0x100 * (a % 0x100) + w % 0x100;
    assert w == 0x1_0000 * b + low;
    assert t == 0x1_0000 * (b - 0x1_0000 * q) + low;
  }

  /** The first two octets of the device's own telemetry decode to the temperature it measured. */
  lemma TelemetryDecodes(readings: DeviceModel.Readings, anomaly: DeviceModel.Kind, drift: real)
    ensures DecodeTemperature(DeviceModel.Telemetry(readings, anomaly, drift))
         == DeviceModel.Temperature(readings, anomaly, drift)
  {
    var v := DeviceModel.Temperature(readings, anomaly, drift);
    var b := DeviceModel.Telemetry(readings, anomaly, drift);
    assert b[0] == DeviceModel.SignedBytes(v)[0] && b[1] == DeviceModel.SignedBytes(v)[1];
    SignedBytesDecode(v, b);
  }

  lemma SignedBytesDecode(v: int, b: seq<byte>)
    requires -0x8000 <= v < 0x8000 && |b| >= 2
    requires b[0] == DeviceModel.SignedBytes(v)[0] && b[1] == DeviceModel.SignedBytes(v)[1]
    ensures DecodeTemperature(b) == v
  {
    Join2IsSum(b[0], b[1]);
    SplitSixteen(v);
    assert Join2(b[0], b[1]) == v % TWO16;
    Signed16Back(v);
  }

  lemma SplitSixteen(v: int)
    ensures 0x100 * (v % TWO16 / 0x100) + v % 0x100 == v % TWO16
  {
    assert v % TWO16 % 0x100 == v % 0x100 by {
      assert v == 0x100 * (0x100 * (v / TWO16)) + v % TWO16;
    }
  }

  lemma Signed16Back(v: int)
    requires -0x8000 <= v < 0x8000
    ensures Signed16(v % TWO16) == v
  {
  }

  // ----- meter -----

  function EncodeMeter(litres: int): seq<byte> {
    [Octet(litres, 3), Octet(litres, 2), Octet(litres, 1), Octet(litres, 0)]
  }

  function DecodeMeter(bytes: seq<byte>): int
    requires |bytes| >= 4
  {
    Unsigned(Int32(Join4(bytes[0], bytes[1], bytes[2], bytes[3])))
  }

  function Unsigned(v: int): int {
    if v < 0 then 0xFFFF_FFFF + v + 1 else v
  }

  /** Decoding gives a meter reading back exactly when it fits thirty-two unsigned bits. */
  lemma MeterRoundTrip(litres: int)
    ensures DecodeMeter(EncodeMeter(litres)) == litres <==> 0 <= litres < TWO32
  {
    MeterReads(litres);
    ReducedIff(litres);
  }

  lemma ReducedIff(v: int)
    ensures v % TWO32 == v <==> 0 <= v < TWO32
  {
  }

  /** The four octets are the 32-bit value, high octet first. */
  lemma MeterIsBigEndian(litres: int)
    ensures var b := EncodeMeter(litres);
            && |b| == 4
            && 0x100_0000 * (b[0] as int) + 0x1_0000 * (b[1] as int) + 0x100 * (b[2] as int) + b[3] as int == litres % TWO32
  {
    OctetSum(litres);
  }

  lemma MeterReads(litres: int)
    ensures DecodeMeter(EncodeMeter(litres)) == litres % TWO32
  {
    FourOctets(litres);
    UnsignedBack(litres % TWO32);
  }

  /** A 32-bit value read as signed and corrected is the unsigned value again. */
  lemma UnsignedBack(u: int)
    requires 0 <= u < TWO32
    ensures Unsigned(Int32(u)) == u
  {
  }

  lemma FourOctets(v: int)
    ensures Join4(Octet(v, 3), Octet(v, 2), Octet(v, 1), Octet(v, 0)) == v % TWO32
  {
    Join4IsSum(Octet(v, 3), Octet(v, 2), Octet(v, 1), Octet(v, 0));
    OctetSum(v);
  }

  lemma OctetSum(v: int)
    ensures 0x100_0000 * (Octet(v, 3) as int) + 0x1_0000 * (Octet(v, 2) as int) + 0x100 * (Octet(v, 1) as int) + Octet(v, 0) as int
         == v % TWO32
  {
    FourSum(v, Int32(v));
  }

  lemma FourSum(v: int, w: int)
    requires (w - v) % TWO32 == 0
    ensures 0x100_0000 * (w / 0x100_0000 % 0x100) + 0x1_0000 * (w / 0x1_0000 % 0x100) + 0x100 * (w / 0x100 % 0x100) + w % 0x100
         == v % TWO32
  {
    var a := w / 0x100;
    var b := a / 0x100;
    FourCongruent(v, w, a, b, b / 0x100);
    assert b == w / 0x1_0000 && b / 0x100 == w / 0x100_0000;
  }

  lemma FourCongruent(v: int, w: int, a: int, b: int, c: int)
    requires (w - v) % TWO32 == 0 && a == w / 0x100 && b == a / 0x100 && c == b / 0x100
    ensures 0x100_0000 * (c % 0x100) + 0x1_0000 * (b % 0x100) + 0x100 * (a % 0x100) + w % 0x100 == v % TWO32
  {
    var q, e := (w - v) / TWO32, c / 0x100;
    var sum := 0x100_0000 * (c % 0x100) + 0x1_0000 * (b % 0x100) + 0x100 * (a % 0x100) + w % 0x100;
    assert w == TWO32 * e + sum;
    assert v == TWO32 * (e - q) + sum;
  }
}
