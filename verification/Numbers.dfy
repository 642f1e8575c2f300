/** Integers and byte strings as text: `std::stoull`, decimal and hexadecimal printing, hex byte strings. */
module Numbers {
  import opened Wrappers
  import opened Text

  /** The value of a digit in any base up to 36, or -1. */
  function DigitValue(c: char): (d: int)
    ensures -1 <= d < 36
  {
    if '0' <= c <= '9' then c as int - '0' as int
    else if 'a' <= c <= 'z' then c as int - 'a' as int + 10
    else if 'A' <= c <= 'Z' then c as int - 'A' as int + 10
    else -1
  }

  predicate IsDigit(c: char, base: int) {
    0 <= DigitValue(c) < base
  }

  predicate AllDigits(text: string, base: int) {
    forall i :: 0 <= i < |text| ==> IsDigit(text[i], base)
  }

  predicate IsBase(base: int) {
    base == 8 || base == 10 || base == 16
  }

  /** A character the printers use for a digit: neither white space nor any delimiter of the format. */
  predicate IsUpperHex(c: char) {
    '0' <= c <= '9' || 'A' <= c <= 'F'
  }

  predicate AllUpperHex(text: string) {
    forall i :: 0 <= i < |text| ==> IsUpperHex(text[i])
  }

  function DigitChar(d: int): (c: char)
    requires 0 <= d < 16
    ensures DigitValue(c) == d && IsUpperHex(c)
  {
    if d < 10 then ('0' as int + d) as char else ('A' as int + d - 10) as char
  }

  /** Upper-case digits without padding. */
  function Digits(n: nat, base: int): (text: string)
    requires IsBase(base)
    ensures |text| > 0 && AllUpperHex(text) && AllDigits(text, base)
    decreases n
  {
    if n < base then [DigitChar(n)]
    else
      assert n / base < n;
      Digits(n / base, base) + [DigitChar(n % base)]
  }

  function DigitsValue(text: string, base: int): (n: nat)
    requires IsBase(base)
    requires AllDigits(text, base)
  {
    if text == "" then 0
    else
      var high := DigitsValue(text[..|text| - 1], base);
      assert high * base >= 0;
      assert IsDigit(text[|text| - 1], base);
      high * base + DigitValue(text[|text| - 1])
  }

  lemma {:induction false} DigitsRoundTrip(n: nat, base: int)
    requires IsBase(base)
    ensures DigitsValue(Digits(n, base), base) == n
  {
    var text := Digits(n, base);
    if n >= base {
      DigitsRoundTrip(n / base, base);
      assert text[..|text| - 1] == Digits(n / base, base);
      assert n == n / base * base + n % base;
    } else {
      assert text[..0] == "";
    }
  }

  /** Where the run of base-`base` digits that starts at `from` ends. */
  function DigitRun(text: string, from: nat, base: int): (stop: nat)
    requires from <= |text|
    ensures from <= stop <= |text|
    ensures forall k :: from <= k < stop ==> IsDigit(text[k], base)
    ensures stop < |text| ==> !IsDigit(text[stop], base)
    decreases |text| - from
  {
    if from < |text| && IsDigit(text[from], base) then DigitRun(text, from + 1, base) else from
  }

  lemma RunHasDigits(text: string, from: nat, base: int)
    requires from <= |text|
    ensures AllDigits(text[from..DigitRun(text, from, base)], base)
  {
    var digits := text[from..DigitRun(text, from, base)];
    forall i | 0 <= i < |digits| ensures IsDigit(digits[i], base) {
      assert digits[i] == text[from + i];
    }
  }

  function SkipSpaces(text: string, from: nat): (i: nat)
    requires from <= |text|
    ensures from <= i <= |text|
    ensures i < |text| ==> !IsSpace(text[i])
    decreases |text| - from
  {
    if from < |text| && IsSpace(text[from]) then SkipSpaces(text, from + 1) else from
  }

  datatype Stoull = Stoull(value: u64, consumed: nat)

  /**
   * `std::stoull(text, &consumed, base)` for base 0 or 10: leading white space, an optional sign,
   * the 0x and 0 prefixes in base 0, negation modulo 2^64, and no value when there is no digit or
   * the magnitude does not fit.
   */
  function ParsePrefix(text: string, base: int): (r: Option<Stoull>)
    requires base == 0 || base == 10
    ensures r.Some? ==> 0 < r.value.consumed <= |text|
  {
    var i := SkipSpaces(text, 0);
    var signed := i < |text| && (text[i] == '-' || text[i] == '+');
    var j := if signed then i + 1 else i;
    var hex := base == 0 && j + 2 < |text| && text[j] == '0' && (text[j + 1] == 'x' || text[j + 1] == 'X')
               && IsDigit(text[j + 2], 16);
    var b := if base == 10 then 10 else if hex then 16 else if j < |text| && text[j] == '0' then 8 else 10;
    var start := if hex then j + 2 else j;
    var stop := DigitRun(text, start, b);
    var digits := text[start..stop];
    if stop == start then None
    else
      RunHasDigits(text, start, b);
      var magnitude := DigitsValue(digits, b);
      if magnitude >= TWO64 then None
      else Some(Stoull(if signed && text[i] == '-' then (TWO64 - magnitude) % TWO64 else magnitude, stop))
  }

  /** An integer that uses up the whole text. */
  function ParseUnsigned(text: string, base: int): Option<u64>
    requires base == 0 || base == 10
  {
    match ParsePrefix(text, base)
    case Some(p) => if p.consumed == |text| then Some(p.value) else None
    case None => None
  }

  function Decimal(n: nat): string { Digits(n, 10) }

  function HexLiteral(n: nat): string { "0x" + Digits(n, 16) }

  /** Every 64-bit integer printed in decimal reads back as itself. */
  lemma ParseDecimal(n: u64)
    ensures ParseUnsigned(Decimal(n), 10) == Some(n)
    ensures Trimmed(Decimal(n))
  {
    var text := Digits(n, 10);
    DigitRunIsAll(text, 0, 10);
    assert text[0..|text|] == text;
    DigitsRoundTrip(n, 10);
  }

  /** Every 64-bit integer printed as 0x... reads back as itself in base 0. */
  lemma ParseHexLiteral(n: u64)
    ensures ParseUnsigned(HexLiteral(n), 0) == Some(n)
    ensures Trimmed(HexLiteral(n))
  {
    var digits, text := Digits(n, 16), HexLiteral(n);
    assert text[2..] == digits;
    assert IsDigit(digits[0], 16);
    forall k | 2 <= k < |text| ensures IsDigit(text[k], 16) {
      assert text[k] == digits[k - 2];
    }
    DigitRunIsAll(text, 2, 16);
    assert text[2..|text|] == digits;
    DigitsRoundTrip(n, 16);
  }

  lemma DigitRunIsAll(text: string, from: nat, base: int)
    requires from <= |text|
    requires forall k :: from <= k < |text| ==> IsDigit(text[k], base)
    ensures DigitRun(text, from, base) == |text|
  {
  }

  /** Decimal printing is injective, even in front of a separator that is not a digit. */
  lemma DecimalPrefixInjective(m: nat, n: nat, separator: char, x: string, y: string)
    requires !IsDigit(separator, 10)
    requires Decimal(m) + [separator] + x == Decimal(n) + [separator] + y
    ensures m == n && x == y
  {
    var a, b := Decimal(m), Decimal(n);
    var s := a + [separator] + x;
    assert s[|a|] == separator && s[|b|] == separator;
    forall k | 0 <= k < |a| ensures s[k] != separator { assert s[k] == a[k]; }
    forall k | 0 <= k < |b| ensures s[k] != separator { assert s[k] == b[k]; }
    assert |a| == |b|;
    assert a == s[..|a|] == b;
    assert x == s[|a| + 1..] == y;
    DigitsRoundTrip(m, 10);
    DigitsRoundTrip(n, 10);
  }

  datatype HexError = InvalidHexDigit | OddHexLength

  predicate IsHexFiller(c: char) {
    IsSpace(c) || c == '_'
  }

  type nibble = x: int | 0 <= x < 16

  function HexNibble(c: char): Option<nibble> {
    if IsDigit(c, 16) then Some(DigitValue(c)) else None
  }

  function ByteOfNibbles(high: nibble, low: nibble): byte { high * 16 + low }

  function HighNibble(b: byte): nibble { b / 16 }

  function LowNibble(b: byte): nibble { b % 16 }

  lemma NibblesOfByte(b: byte)
    ensures ByteOfNibbles(HighNibble(b), LowNibble(b)) == b
  {
  }

  /** The hex digits of a text, fillers dropped. */
  function HexDigits(hex: string): (r: Result<seq<nibble>, HexError>)
    ensures r.Err? ==> r.error == InvalidHexDigit
  {
    if hex == "" then Ok([])
    else
      var c := hex[|hex| - 1];
      match HexDigits(hex[..|hex| - 1])
      case Err(e) => Err(e)
      case Ok(ds) =>
        if IsHexFiller(c) then Ok(ds)
        else match HexNibble(c)
          case Some(d) => Ok(ds + [d])
          case None => Err(InvalidHexDigit)
  }

  function PairUp(digits: seq<nibble>): (bytes: seq<byte>)
    requires |digits| % 2 == 0
    ensures |bytes| == |digits| / 2
  {
    seq(|digits| / 2, k requires 0 <= k < |digits| / 2 => ByteOfNibbles(digits[2 * k], digits[2 * k + 1]))
  }

  function HexBytes(hex: string): Result<seq<byte>, HexError> {
    match HexDigits(hex)
    case Err(e) => Err(e)
    case Ok(ds) => if |ds| % 2 == 0 then Ok(PairUp(ds)) else Err(OddHexLength)
  }

  lemma HexDigitsErrorPersists(hex: string, n: nat)
    requires n <= |hex|
    requires HexDigits(hex[..n]).Err?
    ensures HexDigits(hex).Err?
  {
    if n < |hex| {
      assert hex[..|hex| - 1][..n] == hex[..n];
      HexDigitsErrorPersists(hex[..|hex| - 1], n);
    } else {
      assert hex[..n] == hex;
    }
  }

  lemma PairUpAppend(digits: seq<nibble>, high: nibble, low: nibble)
    requires |digits| % 2 == 0
    ensures PairUp(digits + [high, low]) == PairUp(digits) + [ByteOfNibbles(high, low)]
  {
  }

  lemma HexDigitsStep(hex: string, i: nat)
    requires i < |hex|
    ensures HexDigits(hex[..i + 1]) ==
      match HexDigits(hex[..i])
      case Err(e) => Err(e)
      case Ok(ds) =>
        if IsHexFiller(hex[i]) then Ok(ds)
        else match HexNibble(hex[i])
          case Some(d) => Ok(ds + [d])
          case None => Err(InvalidHexDigit)
  {
    assert hex[..i + 1][..i] == hex[..i];
  }

  /** The source's scan, which holds back the high nibble of an unfinished byte. */
  method ParseHexBytes(hex: string) returns (r: Result<seq<byte>, HexError>)
    ensures r == HexBytes(hex)
  {
    var bytes: seq<byte> := [];
    var highNibble: Option<nibble> := None;
    ghost var paired: seq<nibble> := [];
    for i := 0 to |hex|
      invariant |paired| % 2 == 0 && bytes == PairUp(paired)
      invariant HexDigits(hex[..i]) == Ok(if highNibble.Some? then paired + [highNibble.value] else paired)
    {
      var c := hex[i];
      HexDigitsStep(hex, i);
      if IsHexFiller(c) {
        continue;
      }
      var digit := HexNibble(c);
      if digit == None {
        HexDigitsErrorPersists(hex, i + 1);
        return Err(InvalidHexDigit);
      }
      match highNibble {
        case None =>
          highNibble := digit;
        case Some(high) =>
          PairUpAppend(paired, high, digit.value);
          assert paired + [high] + [digit.value] == paired + [high, digit.value];
          bytes := bytes + [ByteOfNibbles(high, digit.value)];
          paired := paired + [high, digit.value];
          highNibble := None;
      }
    }
    assert hex[..|hex|] == hex;
    if highNibble.Some? {
      return Err(OddHexLength);
    }
    return Ok(bytes);
  }

  /** Two upper-case digits a byte, in memory order. */
  function HexText(bytes: seq<byte>): (text: string)
    ensures |text| == 2 * |bytes|
    ensures AllUpperHex(text)
  {
    seq(2 * |bytes|, i requires 0 <= i < 2 * |bytes| =>
      DigitChar(if i % 2 == 0 then HighNibble(bytes[i / 2]) else LowNibble(bytes[i / 2])))
  }

  lemma {:induction false} HexDigitsOfDigits(text: string)
    requires AllUpperHex(text)
    ensures HexDigits(text).Ok?
    ensures |HexDigits(text).value| == |text|
    ensures forall i :: 0 <= i < |text| ==> HexDigits(text).value[i] == DigitValue(text[i])
  {
    if text != "" {
      var prefix := text[..|text| - 1];
      assert AllUpperHex(prefix);
      HexDigitsOfDigits(prefix);
      assert HexNibble(text[|text| - 1]) == Some(DigitValue(text[|text| - 1]));
      assert HexDigits(text) == Ok(HexDigits(prefix).value + [DigitValue(text[|text| - 1])]);
    }
  }

  lemma HexTextAt(bytes: seq<byte>, k: nat)
    requires k < |bytes|
    ensures HexText(bytes)[2 * k] == DigitChar(HighNibble(bytes[k]))
    ensures HexText(bytes)[2 * k + 1] == DigitChar(LowNibble(bytes[k]))
  {
    assert (2 * k) % 2 == 0 && (2 * k) / 2 == k;
    assert (2 * k + 1) % 2 == 1 && (2 * k + 1) / 2 == k;
  }

  lemma PairUpAt(bytes: seq<byte>, digits: seq<nibble>, k: nat)
    requires |digits| == 2 * |bytes| && k < |bytes|
    requires digits[2 * k] == HighNibble(bytes[k]) && digits[2 * k + 1] == LowNibble(bytes[k])
    ensures PairUp(digits)[k] == bytes[k]
  {
    NibblesOfByte(bytes[k]);
  }

  /** Reading undoes printing for every byte string. */
  lemma HexRoundTrip(bytes: seq<byte>)
    ensures HexBytes(HexText(bytes)) == Ok(bytes)
  {
    HexDigitsOfDigits(HexText(bytes));
    var ds := HexDigits(HexText(bytes)).value;
    forall k | 0 <= k < |bytes| ensures PairUp(ds)[k] == bytes[k] {
      HexTextAt(bytes, k);
      PairUpAt(bytes, ds, k);
    }
    assert PairUp(ds) == bytes;
  }
}
