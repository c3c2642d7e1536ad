/** std::stoull(text, nullptr, 16), std::stoll(text) and the printers they invert. */
module Numbers {
  import opened Text

  const SIZE_LIMIT: nat := 0x1_0000_0000_0000_0000
  const INT64_MAX: int := 0x7FFF_FFFF_FFFF_FFFF
  const INT64_MIN: int := -0x8000_0000_0000_0000

  type Base = b: nat | b == 10 || b == 16 witness 10

  predicate IsSpace(c: char) {
    c == ' ' || '\t' <= c <= '\r'
  }

  predicate IsDigit(c: char, base: Base) {
    0 <= DigitValue(c) < base
  }

  function DigitValue(c: char): int {
    if '0' <= c <= '9' then c as int - '0' as int
    else if 'a' <= c <= 'f' then c as int - 'a' as int + 10
    else if 'A' <= c <= 'F' then c as int - 'A' as int + 10
    else -1
  }

  function DigitChar(d: nat): (c: char)
    requires d < 16
    ensures DigitValue(c) == d && !IsSpace(c) && c !in "+-;x\r\n"
    ensures d != 0 ==> c != '0'
  {
    if d < 10 then ('0' as int + d) as char else ('a' as int + d - 10) as char
  }

  function SkipSpace(s: string): string {
    if s != "" && IsSpace(s[0]) then SkipSpace(s[1..]) else s
  }

  /** The longest prefix of digits. */
  function DigitRun(s: string, base: Base): (r: string)
    ensures |r| <= |s| && r == s[..|r|]
    ensures forall c | c in r :: IsDigit(c, base)
    ensures |r| < |s| ==> !IsDigit(s[|r|], base)
  {
    if s == "" || !IsDigit(s[0], base) then "" else [s[0]] + DigitRun(s[1..], base)
  }

  /** Appending the digit `c` to the number `acc`. */
  function Append(acc: nat, base: Base, c: char): nat
    requires IsDigit(c, base)
  {
    if base == 10 then 10 * acc + DigitValue(c) else 16 * acc + DigitValue(c)
  }

  function Magnitude(digits: string, base: Base, acc: nat): nat
    requires forall c | c in digits :: IsDigit(c, base)
  {
    if digits == "" then acc else Magnitude(digits[1..], base, Append(acc, base, digits[0]))
  }

  /** Sign and magnitude of the number that `text` starts with; None when it starts with none. */
  function Scan(text: string, base: Base): Option<(bool, nat)> {
    var s := SkipSpace(text);
    var negative := s != "" && s[0] == '-';
    var unsigned := if s != "" && (s[0] == '-' || s[0] == '+') then s[1..] else s;
    var body :=
      if base == 16 && |unsigned| > 2 && unsigned[0] == '0' && unsigned[1] in "xX" && IsDigit(unsigned[2], 16)
      then unsigned[2..] else unsigned;
    var digits := DigitRun(body, base);
    if digits == "" then None else Some((negative, Magnitude(digits, base, 0)))
  }

  /** std::stoull(text, nullptr, 16); None stands for either exception it throws. */
  function ParseHexSize(text: string): (r: Option<nat>)
    ensures r.Some? ==> r.value < SIZE_LIMIT
  {
    match Scan(text, 16)
    case None => None
    case Some((negative, n)) =>
      if n >= SIZE_LIMIT then None
      else if negative then Some((SIZE_LIMIT - n) % SIZE_LIMIT)
      else Some(n)
  }

  /** std::stoll(text); None stands for either exception it throws. */
  function ParseInt64(text: string): (r: Option<int>)
    ensures r.Some? ==> INT64_MIN <= r.value <= INT64_MAX
  {
    match Scan(text, 10)
    case None => None
    case Some((negative, n)) =>
      var value := if negative then -(n as int) else n as int;
      if INT64_MIN <= value <= INT64_MAX then Some(value) else None
  }

  function PrintNat(n: nat, base: Base): (s: string)
    ensures s != "" && forall c | c in s :: IsDigit(c, base) && !IsSpace(c) && c !in "+-;x\r\n"
    ensures n > 0 ==> s[0] != '0'
    ensures n == 0 ==> s == "0"
  {
    if n < base then [DigitChar(n)] else PrintNat(n / base, base) + [DigitChar(n % base)]
  }

  /** std::to_string(value). */
  function PrintInt(value: int): string {
    if value < 0 then "-" + PrintNat(-value, 10) else PrintNat(value, 10)
  }

  lemma {:induction false} MagnitudeConcat(a: string, b: string, base: Base, acc: nat)
    requires forall c | c in a :: IsDigit(c, base)
    requires forall c | c in b :: IsDigit(c, base)
    ensures Magnitude(a + b, base, acc) == Magnitude(b, base, Magnitude(a, base, acc))
  {
    if a == "" {
      assert a + b == b;
    } else {
      assert (a + b)[1..] == a[1..] + b;
      MagnitudeConcat(a[1..], b, base, Append(acc, base, a[0]));
    }
  }

  lemma {:induction false} MagnitudeOfPrint(n: nat, base: Base)
    ensures Magnitude(PrintNat(n, base), base, 0) == n
  {
    if n < base {
      assert PrintNat(n, base)[1..] == "";
    } else {
      var last := [DigitChar(n % base)];
      MagnitudeOfPrint(n / base, base);
      MagnitudeConcat(PrintNat(n / base, base), last, base, 0);
      assert last[1..] == "";
      assert Append(n / base, base, last[0]) == n;
    }
  }

  lemma {:induction false} DigitRunOfDigits(s: string, base: Base)
    requires forall c | c in s :: IsDigit(c, base)
    ensures DigitRun(s, base) == s
  {
    if s != "" {
      DigitRunOfDigits(s[1..], base);
    }
  }

  lemma ScanPrint(n: nat, base: Base)
    ensures Scan(PrintNat(n, base), base) == Some((false, n))
    ensures n > 0 ==> Scan("-" + PrintNat(n, base), base) == Some((true, n))
  {
    var s := PrintNat(n, base);
    assert s[0] in s;
    DigitRunOfDigits(s, base);
    MagnitudeOfPrint(n, base);
    assert ("-" + s)[1..] == s;
  }

  /** The chunk sizes that a conforming sender writes are read back. */
  lemma HexRoundTrip(n: nat)
    requires n < SIZE_LIMIT
    ensures ParseHexSize(PrintNat(n, 16)) == Some(n)
  {
    ScanPrint(n, 16);
  }

  lemma Int64RoundTrip(value: int)
    requires INT64_MIN <= value <= INT64_MAX
    ensures ParseInt64(PrintInt(value)) == Some(value)
  {
    ScanPrint(if value < 0 then -value else value, 10);
  }

  /** std::stoll is not injective on texts: "1" and "01" are both one. */
  lemma NonCanonicalTextsCollide()
    ensures ParseInt64("1") == ParseInt64("01") == Some(1) && "1" != "01"
  {
    ScanPrint(1, 10);
    assert PrintNat(1, 10) == "1";
    var padded := "0" + "1";
    DigitRunOfDigits(padded, 10);
    assert padded[1..] == "1";
    assert Magnitude(padded, 10, 0) == Magnitude("1", 10, 0);
    MagnitudeOfPrint(1, 10);
    assert padded == "01";
  }
}
