/** Keys of the `lines.yml` mapping as the YAML loader hands them over, and
    what Python's `str()` (or an f-string) makes of them.

    A YAML key such as `Red` loads as a string, but a key such as `742` loads
    as an integer and `yes`/`true` as a boolean; the scripts compare route ids
    and print keys only after turning them into text. */
module YamlKeys {

  /** A scalar YAML key: a string, an integer or a boolean. */
  datatype YamlKey = KeyStr(s: string) | KeyInt(i: int) | KeyBool(b: bool)

  predicate IsDigit(c: char) { '0' <= c <= '9' }

  predicate AllDigits(s: string) { forall k :: 0 <= k < |s| ==> IsDigit(s[k]) }

  function DigitChar(d: nat): (c: char)
    requires d < 10
    ensures IsDigit(c) && c as int - '0' as int == d
  {
    ('0' as int + d) as char
  }

  /** Decimal digits of `n`, most significant first, with no leading zero. */
  function NatDecimal(n: nat): (s: string)
    ensures |s| >= 1 && AllDigits(s)
    ensures |s| > 1 ==> s[0] != '0'
    decreases n
  {
    if n < 10 then [DigitChar(n)] else NatDecimal(n / 10) + [DigitChar(n % 10)]
  }

  /** Reads a string of decimal digits back as a number (the inverse of NatDecimal). */
  function ParseDecimal(s: string): nat
    requires AllDigits(s)
    decreases |s|
  {
    if s == [] then 0
    else ParseDecimal(s[..|s| - 1]) * 10 + (s[|s| - 1] as int - '0' as int)
  }

  /** Python's `str()` of a key: integers in decimal with a leading `-` when
      negative, booleans as `True` / `False`, strings unchanged. */
  function PyStr(k: YamlKey): (text: string)
    ensures k.KeyInt? ==> |text| >= 1 && (text[0] == '-' <==> k.i < 0)
    ensures k.KeyInt? ==> AllDigits(text[if k.i < 0 then 1 else 0..])
  {
    match k
    case KeyStr(s) => s
    case KeyInt(i) => if i < 0 then "-" + NatDecimal(-i) else NatDecimal(i)
    case KeyBool(b) => if b then "True" else "False"
  }

  /** Reading the decimal text of `n` gives back `n`. */
  lemma {:induction false} DecimalRoundTrip(n: nat)
    ensures ParseDecimal(NatDecimal(n)) == n
    decreases n
  {
    if n >= 10 {
      DecimalRoundTrip(n / 10);
      var s := NatDecimal(n);
      assert s[..|s| - 1] == NatDecimal(n / 10);
    }
  }

  /** Different numbers have different decimal texts. */
  lemma NatDecimalApart(a: nat, b: nat)
    requires a != b
    ensures NatDecimal(a) != NatDecimal(b)
  {
    DecimalRoundTrip(a);
    DecimalRoundTrip(b);
  }

  /** The text of a negative integer is a minus sign and the digits of its
      magnitude. */
  lemma NegativeText(i: int)
    requires i < 0
    ensures |PyStr(KeyInt(i))| > 1 && PyStr(KeyInt(i))[0] == '-'
    ensures PyStr(KeyInt(i))[1..] == NatDecimal(-i)
  {
  }

  /** Distinct integer keys never stringify to the same route id, so an
      integer key tracks exactly one route. */
  lemma IntKeysStringifyApart(i: int, j: int)
    requires i != j
    ensures PyStr(KeyInt(i)) != PyStr(KeyInt(j))
  {
    if i < 0 && j < 0 {
      NegativeText(i);
      NegativeText(j);
      NatDecimalApart(-i, -j);
    } else if i >= 0 && j >= 0 {
      NatDecimalApart(i, j);
    } else if i < 0 {
      NegativeText(i);
      assert PyStr(KeyInt(j))[0] != '-';
    } else {
      NegativeText(j);
      assert PyStr(KeyInt(i))[0] != '-';
    }
  }
}
