/**
 * Rust's `str::parse::<u16>`, as the configuration parser uses it for
 * `sv_maxclients` and the artifact lister uses it for build numbers.
 * An optional single leading `+` is accepted (an unsigned type takes no `-`),
 * then one or more ASCII decimal digits whose value must fit in 16 bits.
 */
module Numbers {

  /** Rust's `u16`. */
  type U16 = n: nat | n < 0x1_0000

  datatype Option<T> = None | Some(value: T)

  predicate IsDigit(c: char) { '0' <= c <= '9' }

  predicate AllDigits(s: string) { forall i :: 0 <= i < |s| ==> IsDigit(s[i]) }

  function DigitValue(c: char): nat
    requires IsDigit(c)
  {
    c as nat - '0' as nat
  }

  /** The value of a string of decimal digits, most significant first. */
  function DigitsValue(s: string): nat
    requires AllDigits(s)
  {
    if |s| == 0 then 0 else DigitsValue(s[..|s| - 1]) * 10 + DigitValue(s[|s| - 1])
  }

  /** The digits `parse` reads: one leading `+` is dropped. */
  function Unsigned(s: string): string
  {
    if |s| > 0 && s[0] == '+' then s[1..] else s
  }

  /** `s.parse::<u16>().ok()` */
  function ParseU16(s: string): Option<U16>
  {
    var ds := Unsigned(s);
    if |ds| == 0 || !AllDigits(ds) then None
    else if DigitsValue(ds) < 0x1_0000 then Some(DigitsValue(ds))
    else None
  }

  /** The canonical decimal rendering of `n`, as Rust's `to_string` gives it. */
  function Decimal(n: nat): string
  {
    if n < 10 then [('0' as nat + n) as char]
    else Decimal(n / 10) + [('0' as nat + n % 10) as char]
  }

  function Zeros(k: nat): string
  {
    if k == 0 then "" else Zeros(k - 1) + "0"
  }

  lemma {:induction false} DecimalDigits(n: nat)
    ensures |Decimal(n)| > 0 && AllDigits(Decimal(n)) && DigitsValue(Decimal(n)) == n
  {
    var d := Decimal(n);
    if n >= 10 {
      DecimalDigits(n / 10);
      assert d[..|d| - 1] == Decimal(n / 10);
    }
  }

  lemma {:induction false} LeadingZerosAddNothing(k: nat, s: string)
    requires AllDigits(s)
    ensures AllDigits(Zeros(k) + s) && DigitsValue(Zeros(k) + s) == DigitsValue(s)
  {
    if |s| == 0 {
      assert Zeros(k) + s == Zeros(k);
      ZerosValue(k);
    } else {
      var p := s[..|s| - 1];
      LeadingZerosAddNothing(k, p);
      assert (Zeros(k) + s)[..|Zeros(k) + s| - 1] == Zeros(k) + p;
    }
  }

  lemma {:induction false} ZerosValue(k: nat)
    ensures AllDigits(Zeros(k)) && DigitsValue(Zeros(k)) == 0
  {
    if k > 0 {
      ZerosValue(k - 1);
      assert Zeros(k)[..|Zeros(k)| - 1] == Zeros(k - 1);
    }
  }

  /** Every 16-bit value is read back from its decimal text, with or without
      a leading `+` and any number of leading zeros. */
  lemma {:induction false} ParseDecimal(n: U16, plus: bool, zeros: nat)
    ensures ParseU16((if plus then "+" else "") + Zeros(zeros) + Decimal(n)) == Some(n)
  {
    var ds := Zeros(zeros) + Decimal(n);
    DecimalDigits(n);
    LeadingZerosAddNothing(zeros, Decimal(n));
    assert |ds| > 0 && IsDigit(ds[0]);
    var s := (if plus then "+" else "") + Zeros(zeros) + Decimal(n);
    assert Unsigned(s) == ds by {
      if plus {
        assert s == "+" + ds;
      } else {
        assert s == ds;
      }
    }
  }

  /** Leading zeros change nothing: a digit string parses, to the same
      value, exactly as it does with zeros in front. */
  lemma {:induction false} ParseIgnoresLeadingZeros(z: nat, d: string)
    requires |d| > 0 && AllDigits(d)
    ensures ParseU16(Zeros(z) + d) == ParseU16(d)
  {
    LeadingZerosAddNothing(z, d);
    var padded := Zeros(z) + d;
    assert IsDigit(padded[0]) && IsDigit(d[0]);
    assert Unsigned(padded) == padded && Unsigned(d) == d;
  }

  /** A number that does not fit in 16 bits is refused. */
  lemma {:induction false} ParseRejectsOverflow(n: nat)
    requires n >= 0x1_0000
    ensures ParseU16(Decimal(n)) == None
  {
    DecimalDigits(n);
    assert Decimal(n)[0] != '+';
  }

  /** A text holding anything other than digits after the optional `+`
      (a `-` sign, a letter, a space) is refused. */
  lemma {:induction false} ParseRejectsNonDigits(s: string, i: nat)
    requires i < |Unsigned(s)| && !IsDigit(Unsigned(s)[i])
    ensures ParseU16(s) == None
  {
  }

  /** A text with no digit at all after the optional `+` (`""` or `"+"`) is
      refused, as Rust's `Empty` error refuses it. */
  lemma {:induction false} ParseRejectsEmpty(s: string)
    requires |Unsigned(s)| == 0
    ensures ParseU16(s) == None
  {
  }
}
