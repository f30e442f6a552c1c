/** Default port names: a prefix followed by the decimal group size, as the f-strings
    `f"s_axi{len(self.s_axis)}"` and `f"m_axi{len(self.m_axis)}"` produce them. */
module Naming {
  import opened AxiTypes

  const SlavePrefix: string := "s_axi"
  const MasterPrefix: string := "m_axi"

  function DigitChar(d: nat): char
    requires d < 10
  {
    ('0' as int + d) as char
  }

  function DigitValue(c: char): nat
  {
    if '0' <= c <= '9' then c as int - '0' as int else 0
  }

  /** Python's `str(n)` for a non-negative integer. */
  function Decimal(n: nat): (s: string)
    ensures |s| >= 1
    ensures forall i :: 0 <= i < |s| ==> '0' <= s[i] <= '9'
    ensures s[0] == '0' <==> n == 0
    ensures |s| == 1 <==> n < 10
  {
    if n < 10 then [DigitChar(n)] else Decimal(n / 10) + [DigitChar(n % 10)]
  }

  /** Reads a string of decimal digits back into a number. */
  function ParseDecimal(s: string): nat
  {
    if |s| == 0 then 0 else 10 * ParseDecimal(s[..|s| - 1]) + DigitValue(s[|s| - 1])
  }

  /** Round trip: the decimal rendering reads back to the number. */
  lemma {:induction false} DecimalRoundTrip(n: nat)
    ensures ParseDecimal(Decimal(n)) == n
  {
    var s := Decimal(n);
    if n >= 10 {
      DecimalRoundTrip(n / 10);
      assert s[..|s| - 1] == Decimal(n / 10);
    }
  }

  /** The name given to a port registered without one, `count` being the group's size. */
  function DefaultName(prefix: string, count: nat): string
  {
    prefix + Decimal(count)
  }

  /** The caller's name, or the default one when none is given. */
  function ResolveName(name: Option<string>, prefix: string, count: nat): string
  {
    match name
    case Some(n) => n
    case None => DefaultName(prefix, count)
  }

  /** Default names for different group sizes differ. */
  lemma DefaultNamesDistinct(prefix: string, a: nat, b: nat)
    requires a != b
    ensures DefaultName(prefix, a) != DefaultName(prefix, b)
  {
    if DefaultName(prefix, a) == DefaultName(prefix, b) {
      assert DefaultName(prefix, a)[|prefix|..] == Decimal(a);
      assert DefaultName(prefix, b)[|prefix|..] == Decimal(b);
      DecimalRoundTrip(a);
      DecimalRoundTrip(b);
    }
  }

  /** A name whose number has a leading zero, such as "s_axi01", is never a default name. */
  lemma LeadingZeroIsNeverDefault(prefix: string, count: nat, digits: string)
    requires |digits| > 0
    ensures DefaultName(prefix, count) != prefix + "0" + digits
  {
    assert DefaultName(prefix, count)[|prefix|..] == Decimal(count);
  }

  /** A default name can coincide with a name a caller chose earlier: the second slave
      registered without a name is called "s_axi1". */
  lemma SecondDefaultSlaveName()
    ensures ResolveName(None, SlavePrefix, 1) == "s_axi1"
    ensures ResolveName(None, MasterPrefix, 0) == "m_axi0"
  {
  }
}
