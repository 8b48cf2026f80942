/**
 * The FPGA's error codes and the decoding of its status reply. The reply ends in
 * eight hexadecimal digits ("... FPGA Error Status: hhhhhhhh"); `FPGA::GetError` takes
 * the last eight characters and converts them with `std::stoi(digits, 0, 16)`.
 */
module FpgaErrors {
  import opened Wrappers

  type uint8 = x: int | 0 <= x < 0x100
  type uint32 = x: int | 0 <= x < 0x1_0000_0000

  const IntMin: int := -0x8000_0000
  const IntMax: int := 0x7FFF_FFFF

  /**
   * The eleven named values of `FPGAError::Code`, an enumeration over `uint8_t`. Their
   * numeric values are not given, so they are abstract. `Unnamed(v)` stands for a byte
   * value that no enumerator has; the type cannot rule out that `v` is the unknown
   * value of a named code, so that is a convention of the model.
   */
  datatype FpgaError =
    | QSPI | CLOCK | FPGA_POW | HV_POW | LV_POW | POW_FAIL | CMD | TRIGGER | CLKBUSY
    | OVERFULL | FRAME_ERROR
    | Unnamed(value: uint8)

  const UnknownMessage := "Unknown FPGA Error\n"

  /**
   * The text of a named code's message after the device name "FPGA". Every named
   * message of `FPGAError::GetErrorMessage` is "FPGA" followed by this text.
   */
  function Detail(error: FpgaError): (d: string)
    requires !error.Unnamed?
  {
    match error
    case QSPI => " Error on the Quad SPI Bus\n"
    case CLOCK => " Error with the Internal Clock\n"
    case FPGA_POW => " Power Not Properly Initialized\n"
    case HV_POW => " High Voltage Power Not Configured\n"
    case LV_POW => " Low Voltage Power Not Configured\n"
    case POW_FAIL => " Power Failure wwithin the System\n"
    case CMD => " Invalid FPGA Command\n"
    case TRIGGER => " Invalid Trigger or Trigger Misconfigured\n"
    case CLKBUSY => " CLock is Busy\n"
    case OVERFULL => " Memory Overfilled, Buffer Overfill\n"
    case FRAME_ERROR => " Memory Frame Error\n"
  }

  /** `FPGAError::GetErrorMessage`: total; every message is one line, a named code's starts with "FPGA". */
  function GetErrorMessage(error: FpgaError): (m: string)
    ensures |m| > 0 && m[|m| - 1] == '\n'
    ensures !error.Unnamed? ==> "FPGA" <= m
  {
    if error.Unnamed? then UnknownMessage else "FPGA" + Detail(error)
  }

  /** The fallback text is given to exactly the unnamed codes. */
  lemma UnknownOnlyForUnnamed(error: FpgaError)
    ensures GetErrorMessage(error) == UnknownMessage <==> error.Unnamed?
  {
    if !error.Unnamed? {
      assert GetErrorMessage(error)[0] != UnknownMessage[0];
    }
  }

  /** How long each detail text is: only LV_POW's and POW_FAIL's are of equal length. */
  lemma DetailLength(error: FpgaError)
    requires !error.Unnamed?
    ensures |Detail(error)| ==
      match error
      case QSPI => 27
      case CLOCK => 31
      case FPGA_POW => 32
      case HV_POW => 35
      case LV_POW => 34
      case POW_FAIL => 34
      case CMD => 22
      case TRIGGER => 42
      case CLKBUSY => 15
      case OVERFULL => 36
      case FRAME_ERROR => 20
      case Unnamed(_) => 0
  {
  }

  lemma DetailsDistinct(a: FpgaError, b: FpgaError)
    requires !a.Unnamed? && !b.Unnamed? && a != b
    ensures Detail(a) != Detail(b)
  {
    DetailLength(a);
    DetailLength(b);
    if (a.LV_POW? && b.POW_FAIL?) || (a.POW_FAIL? && b.LV_POW?) {
      assert Detail(a)[32] != Detail(b)[32];
    }
  }

  /** Distinct named codes have distinct messages. */
  lemma FpgaMessagesDistinct(a: FpgaError, b: FpgaError)
    requires !a.Unnamed? && !b.Unnamed? && a != b
    ensures GetErrorMessage(a) != GetErrorMessage(b)
  {
    DetailsDistinct(a, b);
    assert GetErrorMessage(a)[4..] == Detail(a);
    assert GetErrorMessage(b)[4..] == Detail(b);
  }

  // ---------------------------------------------------------------------------
  // Hexadecimal text

  predicate IsHexDigit(c: char) {
    ('0' <= c <= '9') || ('a' <= c <= 'f') || ('A' <= c <= 'F')
  }

  predicate AllHex(s: string) {
    forall i :: 0 <= i < |s| ==> IsHexDigit(s[i])
  }

  /** `isspace` in the C locale. */
  predicate IsSpace(c: char) {
    c == ' ' || c == '\t' || c == '\n' || c == '\U{B}' || c == '\U{C}' || c == '\r'
  }

  function DigitValue(c: char): (d: nat)
    requires IsHexDigit(c)
    ensures d < 16
  {
    if '0' <= c <= '9' then c as int - '0' as int
    else if 'a' <= c <= 'f' then c as int - 'a' as int + 10
    else c as int - 'A' as int + 10
  }

  /** The upper-case digit for `d`. */
  function HexChar(d: nat): (c: char)
    requires d < 16
    ensures IsHexDigit(c) && DigitValue(c) == d
  {
    if d < 10 then ('0' as int + d) as char else ('A' as int + d - 10) as char
  }

  function Pow16(n: nat): (p: nat)
    ensures p > 0
  {
    if n == 0 then 1 else 16 * Pow16(n - 1)
  }

  /** The base-16 value of a digit string, most significant digit first. */
  function HexValue(s: string): (v: nat)
    requires AllHex(s)
    ensures v < Pow16(|s|)
  {
    if s == [] then 0
    else HexValue(s[..|s| - 1]) * 16 + DigitValue(s[|s| - 1])
  }

  /** `v` written with exactly `n` digits (the value is taken modulo 16^n). */
  function HexDigits(v: nat, n: nat): (s: string)
    ensures |s| == n && AllHex(s)
  {
    if n == 0 then [] else HexDigits(v / 16, n - 1) + [HexChar(v % 16)]
  }

  /** Reading back `n` digits gives the value, when it fits. */
  lemma {:induction false} HexValueOfDigits(v: nat, n: nat)
    requires v < Pow16(n)
    ensures HexValue(HexDigits(v, n)) == v
  {
    if n > 0 {
      var s := HexDigits(v, n);
      assert s[..n - 1] == HexDigits(v / 16, n - 1);
      HexValueOfDigits(v / 16, n - 1);
    }
  }

  /** The eight-digit field the device sends for a status code. */
  function Hex8(code: uint32): (s: string)
    ensures |s| == 8 && AllHex(s)
  {
    HexDigits(code, 8)
  }

  // ---------------------------------------------------------------------------
  // std::stoi(s, nullptr, 16)

  datatype StatusError =
    | SubstrOutOfRange   // `substr` throws std::out_of_range: the reply is shorter than 8
    | InvalidArgument    // `stoi` throws std::invalid_argument: no digits to convert
    | OutOfRange         // `stoi` throws std::out_of_range: the value does not fit an int

  function SkipSpace(s: string): (t: string)
    ensures IsSuffix(t, s)
    ensures |t| > 0 ==> !IsSpace(t[0])
  {
    if |s| > 0 && IsSpace(s[0]) then SkipSpace(s[1..]) else s
  }

  predicate IsSuffix(t: string, s: string) {
    |t| <= |s| && s[|s| - |t|..] == t
  }

  /** The length of the longest prefix of hexadecimal digits. */
  function HexRun(s: string): (n: nat)
    ensures n <= |s| && AllHex(s[..n])
    ensures n < |s| ==> !IsHexDigit(s[n])
  {
    if |s| > 0 && IsHexDigit(s[0]) then
      var n := 1 + HexRun(s[1..]);
      assert s[..n] == [s[0]] + s[1..][..n - 1];
      n
    else 0
  }

  /** What `strtol`/`strtoul` read in base 16: a sign and the magnitude of the digits. */
  datatype Scanned = Scanned(negative: bool, magnitude: nat)

  /** An optional sign is dropped. */
  function StripSign(t: string): string {
    if |t| > 0 && (t[0] == '+' || t[0] == '-') then t[1..] else t
  }

  /** An optional "0x"/"0X" is dropped, but only when a digit follows it. */
  function StripBasePrefix(u: string): string {
    if |u| >= 3 && u[0] == '0' && (u[1] == 'x' || u[1] == 'X') && IsHexDigit(u[2]) then u[2..] else u
  }

  /**
   * Leading white space, an optional sign, an optional "0x"/"0X" that is followed by a
   * digit, then as many digits as there are; trailing characters are ignored.
   */
  function ScanHex(s: string): (r: Result<Scanned, StatusError>)
    ensures r.Err? ==> r.error == InvalidArgument
  {
    var t := SkipSpace(s);
    var negative := |t| > 0 && t[0] == '-';
    var d := StripBasePrefix(StripSign(t));
    var n := HexRun(d);
    if n == 0 then Err(InvalidArgument)
    else Ok(Scanned(negative, HexValue(d[..n])))
  }

  /** `std::stoi(s, nullptr, 16)`. */
  function StoiHex(s: string): (r: Result<int, StatusError>)
    ensures r.Ok? ==> IntMin <= r.value <= IntMax
  {
    match ScanHex(s)
    case Err(e) => Err(e)
    case Ok(Scanned(negative, magnitude)) =>
      var v: int := if negative then -(magnitude as int) else magnitude;
      if v < IntMin || v > IntMax then Err(OutOfRange) else Ok(v)
  }

  predicate AllSpace(s: string) {
    forall i :: 0 <= i < |s| ==> IsSpace(s[i])
  }

  predicate IsSign(sign: string) {
    sign == "" || sign == "+" || sign == "-"
  }

  /** Leading white space is skipped up to the first other character. */
  lemma {:induction false} SkipSpaceOfSpaces(ws: string, t: string)
    requires AllSpace(ws)
    requires t == [] || !IsSpace(t[0])
    ensures SkipSpace(ws + t) == t
  {
    if ws != [] {
      assert (ws + t)[1..] == ws[1..] + t;
      SkipSpaceOfSpaces(ws[1..], t);
    }
  }

  /** The run of digits stops at the first character that is not one. */
  lemma {:induction false} HexRunOfDigits(digits: string, rest: string)
    requires AllHex(digits)
    requires rest == [] || !IsHexDigit(rest[0])
    ensures HexRun(digits + rest) == |digits|
  {
    if digits != [] {
      assert (digits + rest)[1..] == digits[1..] + rest;
      HexRunOfDigits(digits[1..], rest);
    }
  }

  /**
   * `ws + sign + digits + rest` is a numeral: white space, an optional sign, a
   * non-empty run of digits, then anything that does not continue the run. A lone "0"
   * followed by "x" and a digit is excluded: there the "0x" is a base prefix instead.
   */
  predicate IsNumeral(ws: string, sign: string, digits: string, rest: string) {
    && AllSpace(ws) && IsSign(sign)
    && |digits| > 0 && AllHex(digits)
    && (rest == [] || !IsHexDigit(rest[0]))
    && !(digits == "0" && |rest| >= 2 && (rest[0] == 'x' || rest[0] == 'X') && IsHexDigit(rest[1]))
  }

  /** The signed value a numeral denotes. */
  function SignedValue(sign: string, digits: string): int
    requires AllHex(digits)
  {
    if sign == "-" then -(HexValue(digits) as int) else HexValue(digits)
  }

  /** The sign of a numeral is dropped, and nothing else. */
  lemma StripSignOfSigned(sign: string, u: string)
    requires IsSign(sign)
    requires u != [] && u[0] != '+' && u[0] != '-'
    ensures StripSign(sign + u) == u
  {
    if sign != "" {
      assert (sign + u)[1..] == u;
    }
  }

  /** White space is skipped up to the sign, which alone decides whether the number is negative. */
  lemma SignedStart(ws: string, sign: string, u: string)
    requires AllSpace(ws) && IsSign(sign) && u != [] && IsHexDigit(u[0])
    ensures var t := SkipSpace(ws + sign + u);
            t == sign + u && StripSign(t) == u && ((|t| > 0 && t[0] == '-') <==> sign == "-")
  {
    var t := sign + u;
    assert ws + sign + u == ws + t;
    assert t[0] == if sign == "" then u[0] else sign[0];
    SkipSpaceOfSpaces(ws, t);
    StripSignOfSigned(sign, u);
  }

  /** The digits of a numeral are not mistaken for a base prefix. */
  lemma StripBasePrefixOfDigits(digits: string, rest: string)
    requires IsNumeral([], "", digits, rest)
    ensures StripBasePrefix(digits + rest) == digits + rest
  {
    if |digits| > 1 {
      assert (digits + rest)[1] == digits[1];
    }
  }

  /** A "0x" or "0X" followed by a digit is a base prefix. */
  lemma StripBasePrefixOfPrefixed(x: char, d: string)
    requires (x == 'x' || x == 'X') && d != [] && IsHexDigit(d[0])
    ensures StripBasePrefix(['0', x] + d) == d
  {
    assert (['0', x] + d)[2..] == d;
  }

  /** Digits scan as their value when the run stops right after them. */
  lemma ScanDigits(digits: string, rest: string)
    requires |digits| > 0 && AllHex(digits)
    requires rest == [] || !IsHexDigit(rest[0])
    ensures var d := digits + rest; HexRun(d) == |digits| && d[..HexRun(d)] == digits
  {
    HexRunOfDigits(digits, rest);
    assert (digits + rest)[..|digits|] == digits;
  }

  /** `ScanHex` step by step: skip the white space, then the sign and base prefix, then read digits. */
  lemma ScanHexThrough(s: string, t: string, d: string, digits: string)
    requires t == SkipSpace(s) && d == StripBasePrefix(StripSign(t))
    requires 0 < |digits| == HexRun(d) && d[..|digits|] == digits
    ensures ScanHex(s) == Ok(Scanned(|t| > 0 && t[0] == '-', HexValue(digits)))
  {
  }

  /** A numeral scans as its sign and the value of its digits; what follows is ignored. */
  lemma ScanHexOfNumeral(ws: string, sign: string, digits: string, rest: string)
    requires IsNumeral(ws, sign, digits, rest)
    ensures ScanHex(ws + sign + digits + rest) == Ok(Scanned(sign == "-", HexValue(digits)))
  {
    var u := digits + rest;
    assert ws + sign + digits + rest == ws + sign + u;
    SignedStart(ws, sign, u);
    StripBasePrefixOfDigits(digits, rest);
    ScanDigits(digits, rest);
    ScanHexThrough(ws + sign + u, sign + u, u, digits);
  }

  /** With "0x" or "0X" before its digits, a numeral scans as the value of those digits. */
  lemma ScanHexOfPrefixedNumeral(ws: string, sign: string, x: char, digits: string, rest: string)
    requires IsNumeral(ws, sign, digits, rest) && (x == 'x' || x == 'X')
    ensures ScanHex(ws + sign + ['0', x] + digits + rest) == Ok(Scanned(sign == "-", HexValue(digits)))
  {
    var u := ['0', x] + (digits + rest);
    assert ws + sign + ['0', x] + digits + rest == ws + sign + u;
    SignedStart(ws, sign, u);
    StripBasePrefixOfPrefixed(x, digits + rest);
    ScanDigits(digits, rest);
    ScanHexThrough(ws + sign + u, sign + u, digits + rest, digits);
  }

  /** `std::stoi` of a numeral: its signed value when that fits an `int`, else out of range. */
  lemma StoiHexOfNumeral(ws: string, sign: string, digits: string, rest: string)
    requires IsNumeral(ws, sign, digits, rest)
    ensures var v := SignedValue(sign, digits);
            StoiHex(ws + sign + digits + rest) == if IntMin <= v <= IntMax then Ok(v) else Err(OutOfRange)
  {
    ScanHexOfNumeral(ws, sign, digits, rest);
  }

  /** Without a digit after the white space and the sign, `std::stoi` has nothing to convert. */
  lemma StoiHexWithoutDigits(ws: string, sign: string, rest: string)
    requires AllSpace(ws) && IsSign(sign)
    requires rest == [] || !IsHexDigit(rest[0])
    requires sign == "" && rest != [] ==> !IsSpace(rest[0]) && rest[0] != '+' && rest[0] != '-'
    ensures ScanHex(ws + sign + rest) == Err(InvalidArgument)
    ensures StoiHex(ws + sign + rest) == Err(InvalidArgument)
  {
    var t := sign + rest;
    assert SkipSpace(ws + sign + rest) == t by {
      assert ws + sign + rest == ws + t;
      SkipSpaceOfSpaces(ws, t);
    }
    assert HexRun(StripBasePrefix(StripSign(t))) == 0 by {
      if sign != "" {
        assert t[1..] == rest;
      } else {
        assert t == rest;
      }
    }
  }

  /** The reply's last eight characters: `response.substr(response.size() - 8)`. */
  function StatusField(response: string): (r: Result<string, StatusError>)
    ensures |response| < 8 <==> r == Err(SubstrOutOfRange)
    ensures r.Ok? ==> |r.value| == 8 && IsSuffix(r.value, response)
  {
    if |response| < 8 then Err(SubstrOutOfRange) else Ok(response[|response| - 8..])
  }

  /** The status parse of `FPGA::GetError`; the `int` result becomes a `uint32_t`. */
  function GetError(response: string): (r: Result<uint32, StatusError>)
    ensures |response| < 8 ==> r == Err(SubstrOutOfRange)
  {
    match StatusField(response)
    case Err(e) => Err(e)
    case Ok(digits) =>
      match StoiHex(digits)
      case Err(e) => Err(e)
      case Ok(v) => Ok(v % 0x1_0000_0000)
  }

  /** Only the last eight characters of the reply are read. */
  lemma GetErrorReadsOnlyLastEight(a: string, b: string)
    requires |a| >= 8 && |b| >= 8 && a[|a| - 8..] == b[|b| - 8..]
    ensures GetError(a) == GetError(b)
  {
  }

  /** Eight digits hold any 32-bit value, and nothing more. */
  lemma EightDigitsFit(digits: string)
    requires |digits| == 8 && AllHex(digits)
    ensures Pow16(8) == 0x1_0000_0000 && HexValue(digits) < 0x1_0000_0000
  {
  }

  /** Eight hexadecimal digits scan as their base-16 value. */
  lemma ScanAllHex(digits: string)
    requires |digits| == 8 && AllHex(digits)
    ensures ScanHex(digits) == Ok(Scanned(false, HexValue(digits)))
  {
    ScanHexOfNumeral([], "", digits, []);
    assert [] + "" + digits + [] == digits;
  }

  /** Converting a value that already fits to `uint32_t` leaves it unchanged. */
  lemma WrapKeepsUint32(v: int)
    requires 0 <= v < 0x1_0000_0000
    ensures v % 0x1_0000_0000 == v
  {
  }

  /** `std::stoi` of eight digits: their value if it fits an int. */
  lemma StoiHexOfField(digits: string)
    requires |digits| == 8 && AllHex(digits)
    ensures var v := HexValue(digits);
            StoiHex(digits) == if v <= IntMax then Ok(v) else Err(OutOfRange)
  {
    ScanAllHex(digits);
  }

  /** A reply ending in eight hexadecimal digits decodes to their value if it fits an int. */
  lemma GetErrorOfHexSuffix(response: string)
    requires |response| >= 8 && AllHex(response[|response| - 8..])
    ensures var v := HexValue(response[|response| - 8..]);
            GetError(response) == if v <= IntMax then Ok(v) else Err(OutOfRange)
  {
    var digits := response[|response| - 8..];
    assert StatusField(response) == Ok(digits);
    StoiHexOfField(digits);
    var v := HexValue(digits);
    if v <= IntMax {
      WrapKeepsUint32(v);
    }
  }

  /** A status code sent as eight digits after any prefix decodes back when below 2^31. */
  lemma StatusRoundTrip(prefix: string, code: uint32)
    ensures GetError(prefix + Hex8(code)) == if code <= IntMax then Ok(code) else Err(OutOfRange)
  {
    var response := prefix + Hex8(code);
    assert response[|response| - 8..] == Hex8(code);
    assert Pow16(8) == 0x1_0000_0000;
    HexValueOfDigits(code, 8);
    GetErrorOfHexSuffix(response);
  }

  /** Regrouping a product by the base, kept apart from the sequence facts. */
  lemma ShiftPlace(a: int, b: int)
    ensures a * (16 * b) == (a * b) * 16
  {
  }

  /** A digit string is at least its leading digit times its place value. */
  lemma {:induction false} HexValueAtLeastLeading(s: string)
    requires |s| > 0 && AllHex(s)
    ensures HexValue(s) >= DigitValue(s[0]) * Pow16(|s| - 1)
  {
    var lead := DigitValue(s[0]);
    if |s| > 1 {
      var init := s[..|s| - 1];
      var place := Pow16(|s| - 2);
      assert init[0] == s[0];
      HexValueAtLeastLeading(init);
      var h := HexValue(init);
      assert h >= lead * place;
      assert HexValue(s) >= h * 16;
      assert Pow16(|s| - 1) == 16 * place;
      ShiftPlace(lead, place);
    }
  }

  /** A reply with bit 31 set in its status field is rejected instead of decoded. */
  lemma GetErrorRejectsBit31()
    ensures GetError("FPGA Error Status: 80000000") == Err(OutOfRange)
  {
    var response := "FPGA Error Status: 80000000";
    var digits := response[|response| - 8..];
    assert digits == "80000000";
    assert Pow16(7) == 0x1000_0000;
    HexValueAtLeastLeading(digits);
    GetErrorOfHexSuffix(response);
  }

  /**
   * The evidently intended parse: the eight digits as an unsigned 32-bit value
   * (`std::stoul`, whose negation wraps modulo 2^32).
   */
  function GetErrorCorrected(response: string): (r: Result<uint32, StatusError>)
    ensures |response| < 8 ==> r == Err(SubstrOutOfRange)
  {
    match StatusField(response)
    case Err(e) => Err(e)
    case Ok(digits) =>
      match ScanHex(digits)
      case Err(e) => Err(e)
      case Ok(Scanned(negative, magnitude)) =>
        var v: int := if negative then -(magnitude as int) else magnitude;
        Ok(v % 0x1_0000_0000)
  }

  /** A reply ending in eight hexadecimal digits decodes to their value under the corrected parse. */
  lemma GetErrorCorrectedOfHexSuffix(response: string)
    requires |response| >= 8 && AllHex(response[|response| - 8..])
    ensures GetErrorCorrected(response) == Ok(HexValue(response[|response| - 8..]))
  {
    var digits := response[|response| - 8..];
    assert StatusField(response) == Ok(digits);
    var v := HexValue(digits);
    assert ScanHex(digits) == Ok(Scanned(false, v)) by {
      ScanAllHex(digits);
    }
    EightDigitsFit(digits);
    WrapKeepsUint32(v);
  }

  /** Every 32-bit status code decodes back under the corrected parse. */
  lemma CorrectedStatusRoundTrip(prefix: string, code: uint32)
    ensures GetErrorCorrected(prefix + Hex8(code)) == Ok(code)
  {
    var response := prefix + Hex8(code);
    assert response[|response| - 8..] == Hex8(code);
    assert Pow16(8) == 0x1_0000_0000;
    HexValueOfDigits(code, 8);
    GetErrorCorrectedOfHexSuffix(response);
  }
}
