/** The identifiers the generator gives its vehicles and routes: a letter and
    the row number written with at least three digits, zeros in front
    (generate_data.py:11, 20). Reading the number back recovers it, so no two
    rows share an identifier. */
module Ids {

  function DigitChar(d: nat): (c: char)
    requires d < 10
    ensures '0' <= c <= '9'
  {
    ('0' as int + d) as char
  }

  function DigitValue(c: char): nat {
    if '0' <= c <= '9' then (c as int - '0' as int) else 0
  }

  /** The decimal digits of `n`, most significant first, no leading zeros. */
  function Decimal(n: nat): (s: string)
    ensures |s| >= 1
    ensures forall i | 0 <= i < |s| :: '0' <= s[i] <= '9'
  {
    if n < 10 then [DigitChar(n)] else Decimal(n / 10) + [DigitChar(n % 10)]
  }

  function Zeros(k: nat): (s: string)
    ensures |s| == k && forall i | 0 <= i < k :: s[i] == '0'
  {
    if k == 0 then [] else Zeros(k - 1) + ['0']
  }

  /** Python's `{i:03d}`: the decimal digits padded with zeros to width three. */
  function Pad3(n: nat): string {
    var s := Decimal(n);
    if |s| >= 3 then s else Zeros(3 - |s|) + s
  }

  /** `f'{prefix}{i:03d}'` */
  function FormatId(prefix: char, i: nat): (id: string)
    ensures |id| >= 4 && id[0] == prefix
    ensures forall k | 1 <= k < |id| :: '0' <= id[k] <= '9'
  {
    [prefix] + Pad3(i)
  }

  /** The number a string of digits denotes, most significant first. */
  function ParseDecimal(s: string): nat {
    if s == [] then 0 else 10 * ParseDecimal(s[..|s| - 1]) + DigitValue(s[|s| - 1])
  }

  /** The number written after an identifier's letter. */
  function ParseId(id: string): nat {
    if id == [] then 0 else ParseDecimal(id[1..])
  }

  lemma {:induction false} DecimalLength(n: nat)
    ensures n < 10 ==> |Decimal(n)| == 1
    ensures 10 <= n < 100 ==> |Decimal(n)| == 2
    ensures 100 <= n < 1000 ==> |Decimal(n)| == 3
  {
    if n >= 10 {
      DecimalLength(n / 10);
    }
  }

  lemma {:induction false} ParseDecimalOfDecimal(n: nat)
    ensures ParseDecimal(Decimal(n)) == n
  {
    if n >= 10 {
      ParseDecimalOfDecimal(n / 10);
      var s := Decimal(n);
      assert s[..|s| - 1] == Decimal(n / 10);
    }
  }

  /** Zeros in front do not change the number. */
  lemma {:induction false} ParseDecimalLeadingZeros(k: nat, s: string)
    ensures ParseDecimal(Zeros(k) + s) == ParseDecimal(s)
    decreases |s|, k
  {
    if s == [] {
      assert Zeros(k) + s == Zeros(k);
      if k > 0 {
        assert Zeros(k)[..k - 1] == Zeros(k - 1) + [];
        ParseDecimalLeadingZeros(k - 1, []);
      }
    } else {
      var z := Zeros(k) + s;
      assert z[..|z| - 1] == Zeros(k) + s[..|s| - 1];
      ParseDecimalLeadingZeros(k, s[..|s| - 1]);
    }
  }

  /** Reading an identifier back yields the row number it was made from. */
  lemma ParseFormatId(prefix: char, i: nat)
    ensures ParseId(FormatId(prefix, i)) == i
  {
    var s := Decimal(i);
    ParseDecimalOfDecimal(i);
    assert FormatId(prefix, i)[1..] == Pad3(i);
    if |s| < 3 {
      ParseDecimalLeadingZeros(3 - |s|, s);
    }
  }

  /** Different rows get different identifiers. */
  lemma FormatIdInjective(prefix: char, i: nat, j: nat)
    requires FormatId(prefix, i) == FormatId(prefix, j)
    ensures i == j
  {
    ParseFormatId(prefix, i);
    ParseFormatId(prefix, j);
  }

  /** Below 1000 an identifier is the letter and exactly three digits. */
  lemma FormatIdLength(prefix: char, i: nat)
    requires i < 1000
    ensures |FormatId(prefix, i)| == 4
  {
    DecimalLength(i);
  }

  /** The tenth vehicle is "V009" and the last route "R004". */
  lemma FormatIdExamples()
    ensures FormatId('V', 9) == "V009"
    ensures FormatId('R', 4) == "R004"
    ensures FormatId('V', 0) == "V000"
  {
    assert Zeros(2) == "00";
  }
}
