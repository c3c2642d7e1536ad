/** What the two number parsers read, by the written form of a number instead of its scanning. */
module Numerals {
  import opened Text
  import opened Numbers

  const DIGITS := "0123456789abcdef"
  const CAPITALS := "0123456789ABCDEF"

  /** The character is the digit v, in either case. */
  predicate Denotes(c: char, v: int) {
    0 <= v < 16 && (DIGITS[v] == c || CAPITALS[v] == c)
  }

  /** White space of the C locale. */
  predicate White(c: char) {
    c == ' ' || 9 <= c as int <= 13
  }

  /** Blanks, a sign, perhaps 0x, digits, and what follows them. */
  datatype Numeral = Numeral(space: string, sign: string, prefix: string, digits: string, values: seq<nat>, rest: string)
  {
    function Text(): string {
      space + (sign + (prefix + (digits + rest)))
    }

    ghost predicate Valid(base: Base) {
      && (forall k | 0 <= k < |space| :: White(space[k]))
      && sign in ["", "+", "-"]
      && (prefix == "" || (base == 16 && prefix in ["0x", "0X"]))
      && digits != "" && |digits| == |values|
      && (forall k | 0 <= k < |digits| :: values[k] < base && Denotes(digits[k], values[k]))
      && (rest == "" || NoDigit(rest[0], base))
      && (base == 16 && prefix == "" && digits == "0" && |rest| > 1 && rest[0] in "xX" ==> NoDigit(rest[1], 16))
    }
  }

  ghost predicate NoDigit(c: char, base: Base) {
    forall v: nat | v < base :: !Denotes(c, v)
  }

  /** The digits by their places. */
  function Positional(values: seq<nat>, base: Base): nat {
    if values == [] then 0
    else if base == 10 then 10 * Positional(values[..|values| - 1], base) + values[|values| - 1]
    else 16 * Positional(values[..|values| - 1], base) + values[|values| - 1]
  }

  lemma DigitTable(c: char, v: int)
    requires Denotes(c, v)
    ensures DigitValue(c) == v && !White(c) && c !in "+-xX"
  {
    assert forall k | 0 <= k < 10 :: DIGITS[k] as int == 48 + k && CAPITALS[k] == DIGITS[k];
    assert forall k | 10 <= k < 16 :: DIGITS[k] as int == 87 + k && CAPITALS[k] as int == 55 + k;
  }

  lemma DigitIsDenoted(c: char)
    requires DigitValue(c) >= 0
    ensures Denotes(c, DigitValue(c))
  {
    var v := DigitValue(c);
    assert forall k | 0 <= k < 10 :: DIGITS[k] as int == 48 + k;
    assert forall k | 10 <= k < 16 :: DIGITS[k] as int == 87 + k && CAPITALS[k] as int == 55 + k;
  }

  lemma NoDigitIsNone(c: char, base: Base)
    ensures NoDigit(c, base) <==> !IsDigit(c, base)
  {
    if IsDigit(c, base) {
      DigitIsDenoted(c);
    } else {
      forall v: nat | v < base ensures !Denotes(c, v) {
        if Denotes(c, v) {
          DigitTable(c, v);
        }
      }
    }
  }

  lemma {:induction false} SpaceSkipped(space: string, s: string)
    requires forall k | 0 <= k < |space| :: White(space[k])
    requires s == "" || !White(s[0])
    ensures SkipSpace(space + s) == s
  {
    if space == "" {
      assert space + s == s;
    } else {
      assert (space + s)[1..] == space[1..] + s;
      SpaceSkipped(space[1..], s);
    }
  }

  lemma {:induction false} RunStops(digits: string, rest: string, base: Base)
    requires forall c | c in digits :: IsDigit(c, base)
    requires rest == "" || !IsDigit(rest[0], base)
    ensures DigitRun(digits + rest, base) == digits
  {
    if digits == "" {
      assert digits + rest == rest;
    } else {
      assert digits[0] in digits && (digits + rest)[1..] == digits[1..] + rest;
      RunStops(digits[1..], rest, base);
    }
  }

  lemma {:induction false} MagnitudeIsPositional(digits: string, values: seq<nat>, base: Base)
    requires |digits| == |values| && forall c | c in digits :: IsDigit(c, base)
    requires forall k | 0 <= k < |digits| :: DigitValue(digits[k]) == values[k]
    ensures Magnitude(digits, base, 0) == Positional(values, base)
    decreases |digits|
  {
    if digits != "" {
      var n := |digits| - 1;
      assert digits == digits[..n] + [digits[n]];
      assert forall c | c in digits[..n] :: c in digits;
      assert digits[n] in digits && [digits[n]][1..] == "";
      MagnitudeIsPositional(digits[..n], values[..n], base);
      MagnitudeConcat(digits[..n], [digits[n]], base, 0);
    }
  }

  lemma DigitsAreDigits(n: Numeral, base: Base)
    requires n.Valid(base)
    ensures forall c | c in n.digits :: IsDigit(c, base) && !White(c) && c !in "+-xX"
    ensures forall k | 0 <= k < |n.digits| :: DigitValue(n.digits[k]) == n.values[k]
    ensures n.rest == "" || !IsDigit(n.rest[0], base)
  {
    forall k | 0 <= k < |n.digits|
      ensures DigitValue(n.digits[k]) == n.values[k] && !White(n.digits[k]) && n.digits[k] !in "+-xX"
    {
      DigitTable(n.digits[k], n.values[k]);
    }
    if n.rest != "" {
      NoDigitIsNone(n.rest[0], base);
    }
  }

  /** Behind the sign: the prefix is taken off exactly if the numeral has one. */
  lemma PrefixTaken(n: Numeral, base: Base)
    requires n.Valid(base)
    ensures var unsigned := n.prefix + (n.digits + n.rest);
            (if base == 16 && |unsigned| > 2 && unsigned[0] == '0' && unsigned[1] in "xX" && IsDigit(unsigned[2], 16)
             then unsigned[2..] else unsigned) == n.digits + n.rest
  {
    DigitsAreDigits(n, base);
    var body := n.digits + n.rest;
    assert body[0] == n.digits[0];
    if n.prefix == "" {
      assert "" + body == body;
      if |n.digits| > 1 {
        assert body[1] == n.digits[1] && n.digits[1] in n.digits;
      } else if |n.rest| > 1 {
        assert body[1] == n.rest[0] && body[2] == n.rest[1];
        assert n.digits == [n.digits[0]];
        NoDigitIsNone(n.rest[1], 16);
      }
    } else {
      assert n.digits[0] in n.digits;
      assert (n.prefix + body)[2..] == body && (n.prefix + body)[2] == body[0];
    }
  }

  lemma SignTaken(sign: string, unsigned: string)
    requires sign in ["", "+", "-"] && unsigned != "" && unsigned[0] !in "+-" && !White(unsigned[0])
    ensures var signed := sign + unsigned;
            && signed != "" && !White(signed[0]) && (signed[0] == '-' <==> sign == "-")
            && (if signed[0] == '-' || signed[0] == '+' then signed[1..] else signed) == unsigned
  {
    if sign == "" {
      assert sign + unsigned == unsigned;
    } else {
      assert (sign + unsigned)[1..] == unsigned;
    }
  }

  lemma UnsignedStart(n: Numeral, base: Base)
    requires n.Valid(base)
    ensures var unsigned := n.prefix + (n.digits + n.rest);
            unsigned != "" && unsigned[0] !in "+-" && !White(unsigned[0])
  {
    DigitsAreDigits(n, base);
    assert n.digits[0] in n.digits;
  }

  /** Either parser reads the sign and the digits by their places, and nothing of what follows. */
  lemma ScanMeans(n: Numeral, base: Base)
    requires n.Valid(base)
    ensures Scan(n.Text(), base) == Some((n.sign == "-", Positional(n.values, base)))
  {
    var unsigned := n.prefix + (n.digits + n.rest);
    DigitsAreDigits(n, base);
    PrefixTaken(n, base);
    UnsignedStart(n, base);
    SignTaken(n.sign, unsigned);
    SpaceSkipped(n.space, n.sign + unsigned);
    RunStops(n.digits, n.rest, base);
    MagnitudeIsPositional(n.digits, n.values, base);
    assert n.digits != "" && n.Text() == n.space + (n.sign + unsigned);
    ScanParts(n.Text(), n.sign + unsigned, unsigned, n.digits + n.rest, base);
    hide Scan, DigitRun, Magnitude, SkipSpace, Positional, White;
  }

  lemma ScanParts(text: string, signed: string, unsigned: string, body: string, base: Base)
    requires SkipSpace(text) == signed && signed != ""
    requires unsigned == if signed[0] == '-' || signed[0] == '+' then signed[1..] else signed
    requires (if base == 16 && |unsigned| > 2 && unsigned[0] == '0' && unsigned[1] in "xX" && IsDigit(unsigned[2], 16)
              then unsigned[2..] else unsigned) == body
    ensures var digits := DigitRun(body, base);
            Scan(text, base) == if digits == "" then None else Some((signed[0] == '-', Magnitude(digits, base, 0)))
  {
    hide DigitRun, Magnitude, SkipSpace, IsDigit;
  }

  /** A text that goes on with no digit behind blanks and sign is no number. */
  lemma ScanRejects(space: string, sign: string, rest: string, base: Base)
    requires (forall k | 0 <= k < |space| :: White(space[k])) && sign in ["", "+", "-"]
    requires rest == "" || (NoDigit(rest[0], base) && (sign == "" ==> !White(rest[0]) && rest[0] !in "+-"))
    ensures Scan(space + (sign + rest), base) == None
  {
    var signed := sign + rest;
    assert sign == "" ==> signed == rest;
    assert sign != "" ==> signed[1..] == rest;
    SpaceSkipped(space, signed);
    if rest != "" {
      NoDigitIsNone(rest[0], base);
      DigitZero();
    }
    hide SkipSpace;
  }

  lemma DigitZero()
    ensures IsDigit('0', 10) && IsDigit('0', 16)
  {
  }
}
