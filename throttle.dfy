/** Decoding of the firmware's throttle report (`throttled=0x50005`): the number after the first
    '=' is read with Python's `int(text, 0)`, written in binary with `bin`, left-padded with zeros
    to four digits, and its four lowest bits become the four reasons. */
module Throttle {
  import opened Wrappers

  /** The reasons reported by bits 0 to 3, in the order of the throttle map's keys. */
  const ThrottleMap: seq<string> := [
    "Under-voltage detected", "Arm frequency capped", "Currently throttled",
    "Soft temperature limit active"]

  /** The value of a digit character in `base`, if it is one. */
  function DigitValue(c: char, base: nat): (r: Option<nat>)
    ensures r.Some? ==> r.value < base
  {
    var v :=
      if '0' <= c <= '9' then c as int - '0' as int
      else if 'a' <= c <= 'z' then c as int - 'a' as int + 10
      else if 'A' <= c <= 'Z' then c as int - 'A' as int + 10
      else -1;
    if 0 <= v < base then Some(v) else None
  }

  /** The value of a non-empty string of digits in `base`, most significant first. */
  function DigitsValue(s: string, base: nat): Option<nat>
    decreases |s|
  {
    if s == [] then None
    else
      var last := DigitValue(s[|s| - 1], base);
      if last.None? then None
      else if |s| == 1 then last
      else
        var high := DigitsValue(s[..|s| - 1], base);
        if high.None? then None else Some(high.value * base + last.value)
  }

  predicate AllZeros(s: string)
  {
    forall i :: 0 <= i < |s| ==> s[i] == '0'
  }

  /** The unsigned part of `int(text, 0)`: a 0x/0o/0b prefix (either case) selects the base,
      otherwise the text is decimal and may only start with '0' when it is all zeros. */
  function UnsignedBase0(s: string): Option<nat>
  {
    if |s| >= 2 && s[0] == '0' && (s[1] == 'x' || s[1] == 'X') then DigitsValue(s[2..], 16)
    else if |s| >= 2 && s[0] == '0' && (s[1] == 'o' || s[1] == 'O') then DigitsValue(s[2..], 8)
    else if |s| >= 2 && s[0] == '0' && (s[1] == 'b' || s[1] == 'B') then DigitsValue(s[2..], 2)
    else if |s| >= 1 && s[0] == '0' && !AllZeros(s) then None
    else DigitsValue(s, 10)
  }

  /** `int(text, 0)`, with an optional sign. */
  function ParseIntBase0(s: string): (r: Result<int>)
    ensures r.Err? ==> r.error == ValueError
  {
    var negative := |s| >= 1 && s[0] == '-';
    var body := if |s| >= 1 && (s[0] == '-' || s[0] == '+') then s[1..] else s;
    match UnsignedBase0(body)
    case None => Err(ValueError)
    case Some(v) =>
      var value: int := if negative then -(v as int) else v as int;
      Ok(value)
  }

  /** The text after the first '='; `str.index` raises ValueError when there is none. */
  function AfterFirstEquals(s: string): (r: Result<string>)
    ensures r.Err? <==> forall i :: 0 <= i < |s| ==> s[i] != '='
    ensures r.Err? ==> r.error == ValueError
    ensures r.Ok? ==> exists i :: 0 <= i < |s| && s[i] == '=' && r.value == s[i + 1..] &&
                                  forall j :: 0 <= j < i ==> s[j] != '='
    decreases |s|
  {
    if s == [] then Err(ValueError)
    else if s[0] == '=' then Ok(s[1..])
    else
      var r := AfterFirstEquals(s[1..]);
      if r.Ok? then
        assert forall i :: 0 <= i < |s[1..]| ==> s[1..][i] == s[i + 1];
        r
      else r
  }

  /** The number in the report. */
  function ThrottledValue(output: string): Result<int>
  {
    match AfterFirstEquals(output)
    case Err(e) => Err(e)
    case Ok(text) => ParseIntBase0(text)
  }

  function BitChar(b: nat): char
    requires b < 2
  {
    if b == 1 then '1' else '0'
  }

  /** The binary digits of `m`, without prefix: "0" for zero, otherwise no leading zero. */
  function BinDigits(m: nat): (r: string)
    ensures |r| >= 1
    decreases m
  {
    if m < 2 then [BitChar(m)] else BinDigits(m / 2) + [BitChar(m % 2)]
  }

  /** `bin(n)[2:]`: for a negative number the sign shifts the slice, leaving the 'b' of the
      prefix in front of the digits. */
  function BinTail(n: int): string
  {
    if n >= 0 then BinDigits(n) else "b" + BinDigits(-n)
  }

  function Zeros(k: nat): (z: string)
    ensures |z| == k && AllZeros(z)
  {
    seq(k, _ => '0')
  }

  /** Left padding with '0' to at least four characters. */
  function Pad4(s: string): (r: string)
    ensures |r| == if |s| < 4 then 4 else |s|
  {
    (if |s| < 4 then Zeros(4 - |s|) else "") + s
  }

  /** Bit `i` of `m`. */
  function BitAt(m: nat, i: nat): bool
    decreases i
  {
    if i == 0 then m % 2 == 1 else BitAt(m / 2, i - 1)
  }

  function Abs(n: int): nat
  {
    if n < 0 then -n else n
  }

  /** What the decoding yields for the number `n`: its four lowest bits, or, for -7 to -1,
      ValueError, because then the 'b' left in `bin(n)[2:]` lands among the four digits read. */
  function ThrottleReasons(n: int): (r: Result<seq<bool>>)
    ensures r.Ok? <==> n >= 0 || n <= -8
    ensures r.Ok? ==> |r.value| == |ThrottleMap| &&
                      forall i :: 0 <= i < 4 ==> r.value[i] == BitAt(Abs(n), i)
    ensures r.Err? ==> r.error == ValueError
  {
    var m := Abs(n);
    if n >= 0 || n <= -8 then Ok([BitAt(m, 0), BitAt(m, 1), BitAt(m, 2), BitAt(m, 3)])
    else Err(ValueError)
  }

  lemma {:induction false} BitOfZero(i: nat)
    ensures !BitAt(0, i)
    decreases i
  {
    if i > 0 {
      BitOfZero(i - 1);
    }
  }

  /** Reading `bin` digits from the right gives the bits of `m`, and every bit beyond its digits
      is zero. */
  lemma {:induction false} BinDigitsAreBits(m: nat, i: nat)
    ensures var d := BinDigits(m);
            if i < |d| then d[|d| - 1 - i] == (if BitAt(m, i) then '1' else '0') else !BitAt(m, i)
    decreases m
  {
    var d := BinDigits(m);
    if m < 2 {
      if i > 0 {
        BitOfZero(i - 1);
      }
    } else if i > 0 {
      BinDigitsAreBits(m / 2, i - 1);
      assert d[..|d| - 1] == BinDigits(m / 2);
    }
  }

  /** Four or more binary digits exactly when the number is at least 8. */
  lemma {:induction false} BinLength(m: nat)
    ensures |BinDigits(m)| >= 4 <==> m >= 8
    ensures 0 < m < 8 ==> |BinDigits(m)| <= 3
    decreases m
  {
    if m >= 2 {
      BinLength(m / 2);
    }
  }

  /** Padding keeps the characters counted from the right and adds zeros beyond them. */
  lemma PadFromRight(s: string, i: nat)
    requires i < |Pad4(s)|
    ensures var p := Pad4(s);
            p[|p| - 1 - i] == if i < |s| then s[|s| - 1 - i] else '0'
  {
    var z := if |s| < 4 then Zeros(4 - |s|) else "";
    assert Pad4(s) == z + s;
  }

  /** `bin(n)[2:]` read from the right: the binary digits of |n|, then the 'b' when n < 0. */
  lemma BinTailFromRight(n: int, i: nat)
    requires i < |BinDigits(Abs(n))| || (n < 0 && i == |BinDigits(Abs(n))|)
    ensures var t := BinTail(n);
            var d := BinDigits(Abs(n));
            i < |t| && t[|t| - 1 - i] == if i < |d| then d[|d| - 1 - i] else 'b'
  {
  }

  /** The character the loop reads for bit `i` of the padded `bin(n)[2:]`. */
  lemma PaddedChar(n: int, i: nat)
    requires i < 4 && (n >= 0 || n <= -8 || i <= |BinDigits(Abs(n))|)
    ensures var p := Pad4(BinTail(n));
            p[|p| - i - 1] ==
              if n < 0 && i == |BinDigits(Abs(n))| then 'b'
              else if BitAt(Abs(n), i) then '1' else '0'
  {
    var m := Abs(n);
    var d := BinDigits(m);
    var t := BinTail(n);
    BinDigitsAreBits(m, i);
    BinLength(m);
    PadFromRight(t, i);
    if i < |d| || (n < 0 && i == |d|) {
      BinTailFromRight(n, i);
    } else {
      assert |t| == |d|;
    }
  }

  /** The reasons a report decodes to, or the error that decoding raises. */
  function Reasons(output: string): (r: Result<seq<bool>>)
    ensures r.Ok? <==> ThrottledValue(output).Ok? && ThrottleReasons(ThrottledValue(output).value).Ok?
    ensures r.Err? ==> r.error == ValueError
    ensures r.Ok? ==> |r.value| == |ThrottleMap| &&
                      forall i :: 0 <= i < 4 ==> r.value[i] == BitAt(Abs(ThrottledValue(output).value), i)
  {
    match ThrottledValue(output)
    case Err(e) => Err(e)
    case Ok(n) => ThrottleReasons(n)
  }

  /** `check_if_throttled`, given the text the firmware printed: parse the number, then read one
      padded binary digit per key of the throttle map, lowest bit first. */
  method CheckIfThrottled(output: string) returns (r: Result<seq<bool>>)
    ensures r == Reasons(output)
  {
    var parsed := ThrottledValue(output);
    if parsed.Err? {
      return Err(parsed.error);
    }
    var n := parsed.value;
    var binary := Pad4(BinTail(n));
    var reasons: seq<bool> := [];
    BinLength(Abs(n));
    for bitN := 0 to |ThrottleMap|
      invariant n >= 0 || n <= -8 || bitN <= |BinDigits(Abs(n))|
      invariant |reasons| == bitN && forall i :: 0 <= i < bitN ==> reasons[i] == BitAt(Abs(n), i)
    {
      var bit := binary[|binary| - bitN - 1];
      PaddedChar(n, bitN);
      if bit == '1' {
        reasons := reasons + [true];
      } else if bit == '0' {
        reasons := reasons + [false];
      } else {
        return Err(ValueError);
      }
    }
    assert reasons == ThrottleReasons(n).value;
    return Ok(reasons);
  }

  /** Adding a multiple of 2^(i+1) leaves bit `i` alone. */
  lemma {:induction false} BitAtShift(n: nat, k: nat, i: nat)
    ensures BitAt(n + Pow2(i + 1) * k, i) == BitAt(n, i)
    decreases i
  {
    if i > 0 {
      var x := Pow2(i) * k;
      assert Pow2(i + 1) * k == 2 * x;
      assert (n + 2 * x) / 2 == n / 2 + x;
      BitAtShift(n / 2, k, i - 1);
    }
  }

  function Pow2(i: nat): (r: nat)
    ensures r >= 1
  {
    if i == 0 then 1 else 2 * Pow2(i - 1)
  }

  /** Bits above 3 (the "has occurred" flags) never change the reasons. */
  lemma HighBitsIgnored(n: nat, k: nat)
    ensures ThrottleReasons(n + 16 * k) == ThrottleReasons(n)
  {
    BitAtShift(n, 8 * k, 0);
    BitAtShift(n, 4 * k, 1);
    BitAtShift(n, 2 * k, 2);
    BitAtShift(n, k, 3);
    assert Pow2(2) * (4 * k) == 16 * k;
    assert Pow2(3) * (2 * k) == 16 * k;
    assert Pow2(4) * k == 16 * k;
  }

  function HexChar(d: nat): char
    requires d < 16
  {
    if d < 10 then ('0' as int + d) as char else ('a' as int + d - 10) as char
  }

  /** Lower-case hexadecimal digits of `m`, as the firmware prints them after "0x". */
  function HexDigits(m: nat): (r: string)
    ensures |r| >= 1
    decreases m
  {
    if m < 16 then [HexChar(m)] else HexDigits(m / 16) + [HexChar(m % 16)]
  }

  lemma {:induction false} HexDigitsValue(m: nat)
    ensures DigitsValue(HexDigits(m), 16) == Some(m)
    decreases m
  {
    if m >= 16 {
      var s := HexDigits(m);
      HexDigitsValue(m / 16);
      assert s[..|s| - 1] == HexDigits(m / 16);
      assert DigitValue(s[|s| - 1], 16) == Some(m % 16);
    }
  }

  /** The text after the '=' that ends an '='-free name. */
  lemma {:induction false} AfterName(name: string, rest: string)
    requires forall i :: 0 <= i < |name| ==> name[i] != '='
    ensures AfterFirstEquals(name + "=" + rest) == Ok(rest)
    decreases |name|
  {
    if name == [] {
      assert ("" + "=" + rest)[1..] == rest;
    } else {
      assert (name + "=" + rest)[1..] == name[1..] + "=" + rest;
      AfterName(name[1..], rest);
    }
  }

  /** A report in the firmware's own format, `<name>=0x<hex digits>`, decodes to the number it
      prints, whose four lowest bits are the reasons. */
  lemma HexReportDecodes(name: string, m: nat)
    requires forall i :: 0 <= i < |name| ==> name[i] != '='
    ensures ThrottledValue(name + "=0x" + HexDigits(m)) == Ok(m)
    ensures ThrottleReasons(m) == Ok([BitAt(m, 0), BitAt(m, 1), BitAt(m, 2), BitAt(m, 3)])
  {
    var t := "0x" + HexDigits(m);
    assert name + "=0x" + HexDigits(m) == name + "=" + t;
    AfterName(name, t);
    assert t[0] == '0' && t[1] == 'x' && t[2..] == HexDigits(m);
    assert t[0] != '-' && t[0] != '+';
    HexDigitsValue(m);
    assert UnsignedBase0(t) == Some(m);
  }

  /** Concrete values: 0x50005 (under-voltage and throttling now, and both "has occurred"
      flags), zero, -8 and -5. */
  lemma ReasonExamples()
    ensures ThrottleReasons(0x50005) == Ok([true, false, true, false])
    ensures ThrottleReasons(0) == Ok([false, false, false, false])
    ensures ThrottleReasons(-8) == Ok([false, false, false, true])
    ensures ThrottleReasons(-5) == Err(ValueError)
  {
    HighBitsIgnored(5, 0x5000);
    assert BitAt(5, 0) && !BitAt(5, 1) && BitAt(5, 2) && !BitAt(5, 3);
    BitOfZero(0);
    BitOfZero(1);
    BitOfZero(2);
    BitOfZero(3);
    assert !BitAt(8, 0) && !BitAt(8, 1) && !BitAt(8, 2) && BitAt(8, 3);
  }

  /** Report texts: a missing '=' is an error, and a decimal number after it is read as decimal
      unless it starts with a zero. */
  lemma ParseExamples(name: string)
    requires forall i :: 0 <= i < |name| ==> name[i] != '='
    ensures ThrottledValue(name) == Err(ValueError)
    ensures ThrottledValue(name + "=7") == Ok(7)
    ensures ThrottledValue(name + "=07") == Err(ValueError)
  {
    AfterName(name, "7");
    AfterName(name, "07");
    assert name + "=" + "7" == name + "=7";
    assert name + "=" + "07" == name + "=07";
    assert UnsignedBase0("7") == Some(7);
    assert !AllZeros("07") by { assert "07"[1] != '0'; }
    assert UnsignedBase0("07") == None;
  }
}
