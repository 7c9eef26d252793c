/** Decimal text of integers: big.Int.Text(10), big.Int.SetString(s, 10), strconv.ParseInt. */
module Decimal {
  import opened Wrappers

  function DigitChar(d: nat): char
    requires d < 10
  {
    '0' + d as char
  }

  function DigitValue(c: char): Option<nat> {
    if '0' <= c <= '9' then Some((c - '0') as nat) else None
  }

  function NatText(n: nat): (s: string)
    ensures s != [] && DigitValue(s[0]).Some?
  {
    if n < 10 then [DigitChar(n)] else NatText(n / 10) + [DigitChar(n % 10)]
  }

  /** big.Int.Text(10). */
  function Text(n: int): string {
    if n < 0 then "-" + NatText(-n) else NatText(n)
  }

  /** A non-empty run of digits. */
  function ParseNat(s: string): Option<nat> {
    if s == [] then None
    else
      var last := DigitValue(s[|s| - 1]);
      if |s| == 1 then last
      else Shifted(ParseNat(s[..|s| - 1]), last)
  }

  /** The number in front moved up by one place for the last digit. */
  function Shifted(front: Option<nat>, last: Option<nat>): Option<nat> {
    if front.Some? && last.Some? then Some(10 * front.value + last.value) else None
  }

  /** An optional sign and a non-empty run of digits, nothing else. */
  function ParseInteger(s: string): Option<int> {
    if s != [] && (s[0] == '-' || s[0] == '+') then
      var n := ParseNat(s[1..]);
      if n.None? then None else Some(if s[0] == '-' then -(n.value as int) else n.value)
    else
      var n := ParseNat(s);
      if n.None? then None else Some(n.value)
  }

  lemma {:induction false} ParseNatText(n: nat)
    ensures ParseNat(NatText(n)) == Some(n)
  {
    if n >= 10 {
      ParseNatText(n / 10);
      var s := NatText(n);
      assert s[..|s| - 1] == NatText(n / 10);
      assert n == 10 * (n / 10) + n % 10;
    }
  }

  /** Printing and parsing give back every integer, so counters survive as strings. */
  lemma ParseText(n: int)
    ensures ParseInteger(Text(n)) == Some(n)
  {
    if n < 0 {
      ParseSigned(-n);
    } else {
      ParseNatText(n);
    }
  }

  lemma ParseSigned(n: nat)
    ensures ParseInteger("-" + NatText(n)) == Some(-(n as int))
  {
    ParseNatText(n);
    SignedParse("-", NatText(n), n);
  }

  // ---- which texts are numbers ----

  function Zeros(k: nat): string {
    seq(k, _ => '0')
  }

  /** s is a sign, or none, any number of leading zeros and the decimal digits of n. */
  predicate Numeral(s: string, sign: string, k: nat, n: int) {
    && s == sign + (Zeros(k) + NatText(if n < 0 then -n else n))
    && (sign == "" || sign == "+" || sign == "-")
    && (n < 0 ==> sign == "-")
    && (n > 0 ==> sign != "-")
  }

  lemma DigitValueOfChar(d: nat)
    requires d < 10
    ensures DigitValue(DigitChar(d)) == Some(d)
  {
  }

  lemma DigitCharOfValue(c: char)
    requires DigitValue(c).Some?
    ensures DigitValue(c).value < 10 && DigitChar(DigitValue(c).value) == c
  {
  }

  lemma ParseSnoc(front: string, c: char)
    ensures ParseNat(front + [c]) ==
            if front == "" then DigitValue(c) else Shifted(ParseNat(front), DigitValue(c))
  {
    var s := front + [c];
    assert s[..|s| - 1] == front && s[|s| - 1] == c;
  }

  lemma ParseNatStep(front: string, d: nat)
    requires d < 10
    ensures ParseNat(front + [DigitChar(d)]) ==
            if front == "" then Some(d) else Shifted(ParseNat(front), Some(d))
  {
    ParseSnoc(front, DigitChar(d));
    DigitValueOfChar(d);
  }

  lemma {:induction false} ParseZeros(k: nat)
    requires k > 0
    ensures ParseNat(Zeros(k)) == Some(0)
  {
    if k > 1 {
      ParseZeros(k - 1);
    }
    assert Zeros(k) == Zeros(k - 1) + [DigitChar(0)];
    ParseNatStep(Zeros(k - 1), 0);
  }

  lemma {:induction false} ParsePadded(k: nat, n: nat)
    ensures ParseNat(Zeros(k) + NatText(n)) == Some(n)
    ensures DigitValue((Zeros(k) + NatText(n))[0]).Some?
    decreases n
  {
    if n < 10 {
      if k > 0 {
        ParseZeros(k);
      }
      ParseNatStep(Zeros(k), n);
    } else {
      ParsePadded(k, n / 10);
      assert Zeros(k) + NatText(n) == (Zeros(k) + NatText(n / 10)) + [DigitChar(n % 10)];
      ParseNatStep(Zeros(k) + NatText(n / 10), n % 10);
    }
  }

  /** Digits that parse are padded decimal text. */
  lemma {:induction false} ParsedIsPadded(s: string) returns (k: nat)
    requires ParseNat(s).Some?
    ensures s == Zeros(k) + NatText(ParseNat(s).value)
    decreases |s|
  {
    var front, last := s[..|s| - 1], s[|s| - 1];
    assert s == front + [last];
    if front == "" {
      assert DigitValue(last).Some?;
      DigitCharOfValue(last);
      k := 0;
    } else {
      var j := ParsedIsPadded(front);
      DigitCharOfValue(last);
      k := OneMoreDigit(j, ParseNat(front).value, DigitValue(last).value);
    }
  }

  lemma OneMoreDigit(j: nat, m: nat, d: nat) returns (k: nat)
    requires d < 10
    ensures Zeros(j) + NatText(m) + [DigitChar(d)] == Zeros(k) + NatText(10 * m + d)
  {
    if m == 0 {
      k := j + 1;
      assert Zeros(j) + NatText(0) == Zeros(k);
    } else {
      k := j;
      assert NatText(10 * m + d) == NatText(m) + [DigitChar(d)];
    }
  }

  /** Parsing accepts exactly the numerals, and yields what they denote. */
  lemma ParsesNumerals(s: string, n: int)
    ensures ParseInteger(s) == Some(n) <==> exists sign, k :: Numeral(s, sign, k, n)
  {
    if ParseInteger(s) == Some(n) {
      var sign := if s[0] == '-' || s[0] == '+' then s[..1] else "";
      var k := ParsedIsPadded(s[|sign|..]);
      assert s == sign + s[|sign|..];
      assert Numeral(s, sign, k, n);
    }
    if sign, k :| Numeral(s, sign, k, n) {
      NumeralParses(s, sign, k, n);
    }
  }

  lemma NumeralParses(s: string, sign: string, k: nat, n: int)
    requires Numeral(s, sign, k, n)
    ensures ParseInteger(s) == Some(n)
  {
    var m := if n < 0 then -n else n;
    ParsePadded(k, m);
    SignedParse(sign, Zeros(k) + NatText(m), m);
  }

  lemma SignedParse(sign: string, digits: string, m: nat)
    requires sign == "" || sign == "+" || sign == "-"
    requires ParseNat(digits) == Some(m) && digits[0] != '-' && digits[0] != '+'
    ensures ParseInteger(sign + digits) == Some(if sign == "-" then -(m as int) else m)
  {
    assert (sign + digits)[|sign|..] == digits;
    if sign == "" {
      assert sign + digits == digits;
    } else {
      assert (sign + digits)[0] == sign[0];
    }
  }

  lemma DecimalExamples()
    ensures Text(0) == "0" && Text(-120) == "-120" && Text(1907) == "1907"
    ensures ParseInteger("+007") == Some(7) && ParseInteger("-120") == Some(-120)
    ensures ParseInteger("") == None && ParseInteger("-") == None && ParseInteger("12a") == None
  {
    assert NatText(12) == NatText(1) + [DigitChar(2)];
    assert NatText(190) == NatText(19) + [DigitChar(0)];
    ParseText(-120);
    assert Numeral("+007", "+", 2, 7);
    NumeralParses("+007", "+", 2, 7);
    assert ParseNat("12a") == None;
  }
}
