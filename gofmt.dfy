/**
 * The two pieces of Go's fmt package that the monitor's hex conversion
 * depends on, written out: `fmt.Sscanf(s, "0x%x", &v)` with `v` of type
 * `int`, and `fmt.Sprintf("%d", v)`.
 *
 * Go's `int` is assumed to be 64 bits wide; its width depends on the
 * target platform.
 */
module GoFmt {
  import opened Wrappers

  const IntMin: int := -0x8000_0000_0000_0000
  const IntMax: int := 0x7FFF_FFFF_FFFF_FFFF

  /** The values a Go `int` (and strconv.ParseInt with bit size 64) can hold. */
  predicate InInt(x: int) {
    IntMin <= x <= IntMax
  }

  // ---------------------------------------------------------------------
  // Characters

  /** The digits the %x verb accepts: no underscore, no base prefix. */
  predicate IsHexDigit(c: char) {
    '0' <= c <= '9' || 'a' <= c <= 'f' || 'A' <= c <= 'F'
  }

  predicate IsDecimalDigit(c: char) {
    '0' <= c <= '9'
  }

  /** The white space of the scanner's own table: the code points it skips before a verb. */
  predicate IsSpace(c: char) {
    var x := c as int;
    (0x09 <= x <= 0x0d) || x == 0x20 || x == 0x85 || x == 0xa0 || x == 0x1680
    || (0x2000 <= x <= 0x200a) || x == 0x2028 || x == 0x2029 || x == 0x202f
    || x == 0x205f || x == 0x3000
  }

  /** A run the scanner skips without error: white space, none of it a newline. */
  predicate IsBlankRun(s: string) {
    forall i :: 0 <= i < |s| ==> IsSpace(s[i]) && s[i] != '\n'
  }

  predicate AllHexDigits(s: string) {
    forall i :: 0 <= i < |s| ==> IsHexDigit(s[i])
  }

  predicate AllDecimalDigits(s: string) {
    forall i :: 0 <= i < |s| ==> IsDecimalDigit(s[i])
  }

  // ---------------------------------------------------------------------
  // Hexadecimal numerals

  function HexDigitValue(c: char): (d: nat)
    requires IsHexDigit(c)
    ensures d < 16
  {
    if c <= '9' then c as int - '0' as int
    else if 'a' <= c then c as int - 'a' as int + 10
    else c as int - 'A' as int + 10
  }

  /** The value of a run of hexadecimal digits, most significant first. */
  function HexValue(s: string): nat
    requires AllHexDigits(s)
  {
    if s == [] then 0 else HexValue(s[..|s| - 1]) * 16 + HexDigitValue(s[|s| - 1])
  }

  function LowerHexDigit(d: nat): (c: char)
    requires d < 16
    ensures IsHexDigit(c) && HexDigitValue(c) == d
  {
    if d < 10 then ('0' as int + d) as char else ('a' as int + d - 10) as char
  }

  /**
   * The lower-case hexadecimal numeral of n without leading zeros, the way
   * an Ethereum node writes a quantity after its "0x" prefix.
   */
  function LowerHex(n: nat): (s: string)
    ensures |s| > 0 && AllHexDigits(s)
    ensures (s[0] == '0') == (n == 0)
    decreases n
  {
    if n < 16 then [LowerHexDigit(n)] else LowerHex(n / 16) + [LowerHexDigit(n % 16)]
  }

  /** Reading the numeral back gives the number that was written. */
  lemma {:induction false} LowerHexRoundTrip(n: nat)
    ensures HexValue(LowerHex(n)) == n
  {
    if n >= 16 {
      var s := LowerHex(n);
      assert s[..|s| - 1] == LowerHex(n / 16);
      LowerHexRoundTrip(n / 16);
    }
  }

  // ---------------------------------------------------------------------
  // Sscanf(s, "0x%x", &v) with v an int

  /**
   * The scanner's SkipSpace when reading from a string: it skips white space
   * and fails ("unexpected newline") at a newline. A carriage return right
   * before a newline is consumed first, which changes nothing: the newline
   * still fails the scan. The result is what is left to read.
   */
  function SkipSpace(s: string): Option<string>
    decreases |s|
  {
    if s == [] then Some(s)
    else if s[0] == '\n' then None
    else if IsSpace(s[0]) then SkipSpace(s[1..])
    else Some(s)
  }

  /**
   * When SkipSpace succeeds it has skipped a blank run and stops at the end
   * of the input or at the first character that is not white space.
   */
  lemma {:induction false} SkipSpaceSkipsBlanks(s: string) returns (k: nat)
    requires SkipSpace(s).Some?
    ensures k <= |s| && SkipSpace(s) == Some(s[k..]) && IsBlankRun(s[..k])
    ensures k == |s| || !IsSpace(s[k])
    decreases |s|
  {
    if s == [] || !IsSpace(s[0]) {
      k := 0;
    } else {
      var j := SkipSpaceSkipsBlanks(s[1..]);
      k := j + 1;
      assert s[1..][j..] == s[k..];
      assert s[..k] == [s[0]] + s[1..][..j];
    }
  }

  /** SkipSpace fails exactly when a newline comes before the first character that is not white space. */
  lemma {:induction false} SkipSpaceFailsAtNewline(s: string)
    ensures SkipSpace(s).None? <==> exists k :: 0 <= k < |s| && s[k] == '\n' && IsBlankRun(s[..k])
    decreases |s|
  {
    if SkipSpace(s).Some? {
      var j := SkipSpaceSkipsBlanks(s);
      forall k | 0 <= k < |s| && IsBlankRun(s[..k])
        ensures s[k] != '\n'
      {
        if k < j {
          assert s[..j][k] == s[k];
        }
      }
    } else if s[0] == '\n' {
      assert IsBlankRun(s[..0]);
    } else {
      SkipSpaceFailsAtNewline(s[1..]);
      var k :| 0 <= k < |s[1..]| && s[1..][k] == '\n' && IsBlankRun(s[1..][..k]);
      assert s[..k + 1] == [s[0]] + s[1..][..k];
    }
  }

  /** Skipping white space twice stops where skipping it once does. */
  lemma SkipSpaceIdempotent(s: string)
    requires SkipSpace(s).Some?
    ensures SkipSpace(SkipSpace(s).value) == SkipSpace(s)
  {
    var k := SkipSpaceSkipsBlanks(s);
  }

  /** Skipping white space over a blank run in front of `t` lands where skipping from `t` does. */
  lemma {:induction false} SkipSpaceOverBlanks(blanks: string, t: string)
    requires IsBlankRun(blanks)
    ensures SkipSpace(blanks + t) == SkipSpace(t)
  {
    if blanks != [] {
      var s := blanks + t;
      assert s[0] == blanks[0] && IsSpace(s[0]) && s[0] != '\n';
      assert s[1..] == blanks[1..] + t;
      SkipSpaceOverBlanks(blanks[1..], t);
    } else {
      assert blanks + t == t;
    }
  }

  /** The longest prefix of s made of hexadecimal digits: the digits the %x verb consumes. */
  function HexRun(s: string): (d: string)
    ensures |d| <= |s| && d == s[..|d|] && AllHexDigits(d)
    ensures |d| < |s| ==> !IsHexDigit(s[|d|])
  {
    if s != [] && IsHexDigit(s[0]) then [s[0]] + HexRun(s[1..]) else []
  }

  /** The run of hex digits in front of anything that does not start with one is the whole run. */
  lemma {:induction false} HexRunOfDigits(digits: string, rest: string)
    requires AllHexDigits(digits)
    requires rest == [] || !IsHexDigit(rest[0])
    ensures HexRun(digits + rest) == digits
  {
    if digits != [] {
      assert (digits + rest)[0] == digits[0];
      assert (digits + rest)[1..] == digits[1..] + rest;
      HexRunOfDigits(digits[1..], rest);
    }
  }

  /**
   * strconv.ParseInt(sign + digits, 16, 64): the signed value, or None for the
   * range error it reports when the value does not fit an int.
   */
  function ParseHexInt(negative: bool, digits: string): (r: Option<int>)
    requires AllHexDigits(digits)
    ensures r.Some? ==> InInt(r.value) && (if r.value < 0 then -r.value else r.value) == HexValue(digits)
    ensures r.Some? && r.value < 0 ==> negative
    ensures r.None? ==> HexValue(digits) > IntMax
  {
    var v := if negative then -(HexValue(digits) as int) else HexValue(digits) as int;
    if InInt(v) then Some(v) else None
  }

  /** The %x verb storing into an int, applied to what is left after the literal "0x". */
  function ScanHexVerb(s: string): (r: Option<int>)
    ensures r.Some? ==> InInt(r.value)
  {
    // doScanf skips white space before every verb other than %c
    match SkipSpace(s)
    case None => None
    case Some(s1) =>
      // scanInt skips white space once more
      match SkipSpace(s1)
      case None => None
      case Some(s2) => ScanHexNumber(s2)
  }

  /** scanInt after its white space: an optional sign, then at least one hex digit, then ParseInt. */
  function ScanHexNumber(s: string): (r: Option<int>)
    ensures r.Some? ==> InInt(r.value) && s != []
    ensures s == [] || (!IsHexDigit(s[0]) && s[0] != '+' && s[0] != '-') ==> r.None?
  {
    if s == [] then None   // notEOF: unexpected end of input
    else
      var negative := s[0] == '-';
      var digits := if s[0] == '+' || s[0] == '-' then s[1..] else s;
      if digits == [] || !IsHexDigit(digits[0]) then None   // "expected integer"
      else ParseHexInt(negative, HexRun(digits))
  }

  /**
   * fmt.Sscanf(s, "0x%x", &v) for v of type int: Some(x) when the scan stores
   * x into v, None when it returns an error, in which case v is not written.
   * Input after the digits is not read and raises no error.
   */
  function ScanfHex(s: string): (r: Option<int>)
    ensures r.Some? ==> InInt(r.value)
    ensures !(|s| >= 2 && s[0] == '0' && s[1] == 'x') ==> r.None?
  {
    // the literal characters of the format must match the input exactly
    if |s| >= 2 && s[0] == '0' && s[1] == 'x' then ScanHexVerb(s[2..]) else None
  }

  /**
   * An input that "0x%x" reads, described independently of the scanner: the
   * literal, a blank run, an optional sign, a maximal run of hex digits, and
   * anything after that.
   */
  datatype HexInput = HexInput(blanks: string, sign: string, digits: string, rest: string) {

    predicate WellFormed() {
      && IsBlankRun(blanks)
      && (sign == "" || sign == "+" || sign == "-")
      && |digits| > 0 && AllHexDigits(digits)
      && (rest == [] || !IsHexDigit(rest[0]))
    }

    function Text(): string {
      "0x" + blanks + Tail()
    }

    /** What is left to read once the blank run has been skipped. */
    function Tail(): string {
      sign + (digits + rest)
    }

    function Value(): int
      requires WellFormed()
    {
      if sign == "-" then -(HexValue(digits) as int) else HexValue(digits)
    }
  }

  /** Every input of that shape is scanned to its value, or fails when the value does not fit an int. */
  lemma ScanfHexComplete(h: HexInput)
    requires h.WellFormed()
    ensures ScanfHex(h.Text()) == if InInt(h.Value()) then Some(h.Value()) else None
  {
    var t := h.Tail();
    var s := h.Text();
    assert s == "0x" + (h.blanks + t);
    assert s[2..] == h.blanks + t;
    assert ScanfHex(s) == ScanHexVerb(h.blanks + t);
    SkipSpaceOverBlanks(h.blanks, t);
    ScanNumberComplete(h);
    assert ScanHexVerb(h.blanks + t) == ScanHexNumber(t);
  }

  /** After the blank run, an optional sign and the digits scan to the signed value. */
  lemma ScanNumberComplete(h: HexInput)
    requires h.WellFormed()
    ensures SkipSpace(h.Tail()) == Some(h.Tail())
    ensures ScanHexNumber(h.Tail()) == if InInt(h.Value()) then Some(h.Value()) else None
  {
    var t := h.Tail();
    var after := h.digits + h.rest;
    assert after[0] == h.digits[0];
    HexRunOfDigits(h.digits, h.rest);
    if h.sign == "" {
      assert t == after;
    } else {
      assert t[0] == h.sign[0] && t[1..] == after;
    }
  }

  /** Every input the scan stores a value for has that shape, and the value is the shape's value. */
  lemma ScanfHexSound(s: string)
    requires ScanfHex(s).Some?
    ensures exists h: HexInput :: h.WellFormed() && h.Text() == s && h.Value() == ScanfHex(s).value
  {
    assert ScanfHex(s) == ScanHexVerb(s[2..]);
    var blanks, s1 := ScanHexVerbSplit(s[2..]);
    var h := ScanNumberSound(blanks, s1);
    Reassemble(s, blanks, s1);
    assert h.Text() == s;
  }

  /** A string that starts with the literal is the literal followed by the rest. */
  lemma Reassemble(s: string, blanks: string, tail: string)
    requires |s| >= 2 && s[0] == '0' && s[1] == 'x' && s[2..] == blanks + tail
    ensures s == "0x" + blanks + tail
  {
    assert s == s[..2] + s[2..];
    assert s[..2] == "0x";
  }

  /** A successful %x verb skips a blank run, then reads with ScanHexNumber. */
  lemma ScanHexVerbSplit(s0: string) returns (blanks: string, s1: string)
    requires ScanHexVerb(s0).Some?
    ensures IsBlankRun(blanks) && s0 == blanks + s1
    ensures ScanHexNumber(s1) == ScanHexVerb(s0)
  {
    SkipSpaceIdempotent(s0);
    blanks, s1 := SkipSpaceSplit(s0);
  }

  /** What SkipSpace skips is a blank run, and what it leaves is the rest. */
  lemma SkipSpaceSplit(s: string) returns (blanks: string, rest: string)
    requires SkipSpace(s).Some?
    ensures IsBlankRun(blanks) && s == blanks + rest && SkipSpace(s) == Some(rest)
  {
    var k := SkipSpaceSkipsBlanks(s);
    blanks, rest := s[..k], s[k..];
    assert s == blanks + rest;
  }

  /** The sign and digit run that ScanHexNumber reads, put back together with the blanks before them. */
  lemma ScanNumberSound(blanks: string, s: string) returns (h: HexInput)
    requires IsBlankRun(blanks)
    requires ScanHexNumber(s).Some?
    ensures h.WellFormed() && h.blanks == blanks && h.Tail() == s
    ensures h.Value() == ScanHexNumber(s).value
  {
    var sign := if s[0] == '-' then "-" else if s[0] == '+' then "+" else "";
    var after := s[|sign|..];
    assert s == sign + after;
    var digits, rest := SplitHexRun(after);
    h := HexInput(blanks, sign, digits, rest);
    assert ScanHexNumber(s) == ParseHexInt(s[0] == '-', digits);
  }

  /** The digit run HexRun reads and what follows it. */
  lemma SplitHexRun(s: string) returns (digits: string, rest: string)
    ensures digits == HexRun(s) && s == digits + rest
    ensures rest == [] || !IsHexDigit(rest[0])
  {
    digits := HexRun(s);
    rest := s[|digits|..];
    assert s == digits + rest;
    assert rest == [] || rest[0] == s[|digits|];
  }

  /** A value that does not fit an int makes the scan fail, whatever the digits look like. */
  lemma ScanfHexOverflow(n: nat)
    requires n > IntMax
    ensures ScanfHex("0x" + LowerHex(n)) == None
  {
    var h := HexInput("", "", LowerHex(n), "");
    assert h.Text() == "0x" + LowerHex(n);
    LowerHexRoundTrip(n);
    ScanfHexComplete(h);
  }

  /**
   * With the literal but no hex digit where the number should start (after
   * a blank run and an optional sign), the scan fails.
   */
  lemma ScanfHexNoDigits(blanks: string, sign: string, rest: string)
    requires IsBlankRun(blanks)
    requires sign == "" || sign == "+" || sign == "-"
    requires rest == [] || !IsHexDigit(rest[0])
    requires sign == "" && rest != [] ==> !IsSpace(rest[0]) && rest[0] != '+' && rest[0] != '-'
    ensures ScanfHex("0x" + blanks + sign + rest) == None
  {
    var t := sign + rest;
    assert ("0x" + blanks + sign + rest)[2..] == blanks + t;
    SkipSpaceOverBlanks(blanks, t);
    if sign == "" {
      assert t == rest;
      if rest != [] {
        assert SkipSpace(rest) == Some(rest);
        assert ScanHexNumber(rest) == None;
      }
    } else {
      assert t[0] == sign[0] && t[1..] == rest;
      assert SkipSpace(t) == Some(t);
      assert ScanHexNumber(t) == None;
    }
  }

  /** Whenever the scan stores a value, a hex digit follows the literal somewhere. */
  lemma ScanfHexReadsADigit(s: string)
    ensures ScanfHex(s).Some? ==> exists i :: 2 <= i < |s| && IsHexDigit(s[i])
  {
    if ScanfHex(s).Some? {
      ScanfHexSound(s);
      var h: HexInput :| h.WellFormed() && h.Text() == s && h.Value() == ScanfHex(s).value;
      var k := 2 + |h.blanks| + |h.sign|;
      assert h.Text()[k] == h.digits[0];
    }
  }

  /** A string with no hex digit after its first two characters is never scanned. */
  lemma ScanfHexWithoutDigits(s: string)
    requires forall i :: 2 <= i < |s| ==> !IsHexDigit(s[i])
    ensures ScanfHex(s) == None
  {
    ScanfHexReadsADigit(s);
  }

  /** The scan reads "0x10" as sixteen. */
  lemma ScanfHexExample()
    ensures ScanfHex("0x10") == Some(16)
  {
    var h := HexInput("", "", "10", "");
    assert h.Text() == "0x10";
    assert HexValue("10") == 16;
    ScanfHexComplete(h);
  }

  // ---------------------------------------------------------------------
  // Sprintf("%d", v)

  function DecimalDigit(d: nat): (c: char)
    requires d < 10
    ensures IsDecimalDigit(c) && c as int - '0' as int == d
  {
    ('0' as int + d) as char
  }

  /** The value of a run of decimal digits, most significant first. */
  function DecimalValue(s: string): nat
    requires AllDecimalDigits(s)
  {
    if s == [] then 0 else DecimalValue(s[..|s| - 1]) * 10 + (s[|s| - 1] as int - '0' as int)
  }

  /** The digits of n without leading zeros ("0" for zero). */
  function DecimalDigits(n: nat): (s: string)
    ensures |s| > 0 && AllDecimalDigits(s)
    ensures (s[0] == '0') == (n == 0)
    ensures n == 0 ==> s == "0"
    ensures DecimalValue(s) == n
    decreases n
  {
    if n < 10 then [DecimalDigit(n)]
    else
      var s := DecimalDigits(n / 10) + [DecimalDigit(n % 10)];
      assert s[..|s| - 1] == DecimalDigits(n / 10);
      s
  }

  /**
   * What %d can print: an optional minus sign, then digits without leading
   * zeros, with "0" for zero and no "-0".
   */
  predicate IsDecimalNumeral(s: string) {
    var negative := |s| > 0 && s[0] == '-';
    var mag := if negative then s[1..] else s;
    && |mag| > 0 && AllDecimalDigits(mag)
    && (mag[0] == '0' ==> mag == "0")
    && (negative ==> mag != "0")
  }

  /** The number a decimal numeral denotes. */
  function NumeralValue(s: string): int
    requires IsDecimalNumeral(s)
  {
    if s[0] == '-' then -(DecimalValue(s[1..]) as int) else DecimalValue(s)
  }

  /** fmt.Sprintf("%d", i): always a decimal numeral, and the one that denotes i. */
  function FormatInt(i: int): (s: string)
    ensures IsDecimalNumeral(s)
    ensures NumeralValue(s) == i
  {
    if i < 0 then "-" + DecimalDigits(-i) else DecimalDigits(i)
  }

  /** Sixteen prints as "16". */
  lemma FormatIntExample()
    ensures FormatInt(16) == "16"
  {
    assert DecimalDigits(16) == DecimalDigits(1) + [DecimalDigit(6)];
  }

  /** Different numbers are printed differently. */
  lemma FormatIntInjective(i: int, j: int)
    requires FormatInt(i) == FormatInt(j)
    ensures i == j
  {
  }

  /** Leading digits other than zero make a positive value. */
  lemma {:induction false} LeadingNonZeroIsPositive(d: string)
    requires |d| > 0 && AllDecimalDigits(d) && d[0] != '0'
    ensures DecimalValue(d) > 0
  {
    if |d| > 1 {
      LeadingNonZeroIsPositive(d[..|d| - 1]);
    }
  }

  /** Digits without leading zeros are exactly the digits printed for their value. */
  lemma {:induction false} DecimalDigitsCanonical(d: string)
    requires |d| > 0 && AllDecimalDigits(d) && (d[0] == '0' ==> d == "0")
    ensures DecimalDigits(DecimalValue(d)) == d
  {
    var init := d[..|d| - 1];
    var v := DecimalValue(d);
    if |d| > 1 {
      LeadingNonZeroIsPositive(init);
      DecimalDigitsCanonical(init);
      assert v / 10 == DecimalValue(init);
      assert DecimalDigit(v % 10) == d[|d| - 1];
      assert d == init + [d[|d| - 1]];
    }
  }

  /** Every decimal numeral is what %d prints for the number it denotes: FormatInt is onto the numerals. */
  lemma NumeralCanonical(s: string)
    requires IsDecimalNumeral(s)
    ensures FormatInt(NumeralValue(s)) == s
  {
    if s[0] == '-' {
      DecimalDigitsCanonical(s[1..]);
      LeadingNonZeroIsPositive(s[1..]);
      assert s == "-" + s[1..];
    } else {
      DecimalDigitsCanonical(s);
    }
  }
}
