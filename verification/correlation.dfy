/**
 Write-acknowledgement correlation ids. Ids are allocated from a counter that
 starts at 1 and are sent as the counter's decimal rendering ("1", "2", ...).
 */
module Correlation {

  /** The first id a record allocates */
  const FirstId: nat := 1

  predicate IsDigit(c: char) {
    '0' <= c <= '9'
  }

  predicate AllDigits(s: string) {
    forall i :: 0 <= i < |s| ==> IsDigit(s[i])
  }

  function DigitChar(d: nat): (c: char)
    requires d < 10
    ensures IsDigit(c)
    ensures c as int - '0' as int == d
  {
    ('0' as int + d) as char
  }

  function DigitValue(c: char): (d: nat)
    requires IsDigit(c)
    ensures d < 10
    ensures DigitChar(d) == c
  {
    c as int - '0' as int
  }

  /** Decimal rendering of `n`, without leading zeros */
  function Decimal(n: nat): (s: string)
    ensures 1 <= |s|
    ensures AllDigits(s)
    ensures s[0] == '0' ==> n == 0
    decreases n
  {
    if n < 10 then [DigitChar(n)] else Decimal(n / 10) + [DigitChar(n % 10)]
  }

  /** Reads a string of decimal digits back as a number */
  function ParseDecimal(s: string): (n: nat)
    requires AllDigits(s)
    decreases |s|
  {
    if s == [] then 0 else 10 * ParseDecimal(s[..|s| - 1]) + DigitValue(s[|s| - 1])
  }

  /** Reading back a rendered id gives the counter value it came from */
  lemma {:induction false} ParseDecimalInverse(n: nat)
    ensures ParseDecimal(Decimal(n)) == n
    decreases n
  {
    var s := Decimal(n);
    if n >= 10 {
      var prefix := Decimal(n / 10);
      assert s[..|s| - 1] == prefix;
      assert s[|s| - 1] == DigitChar(n % 10);
      ParseDecimalInverse(n / 10);
    } else {
      assert s[..|s| - 1] == [];
    }
  }

  /** Distinct counter values are rendered as distinct ids */
  lemma DecimalInjective(m: nat, n: nat)
    ensures Decimal(m) == Decimal(n) <==> m == n
  {
    if Decimal(m) == Decimal(n) {
      ParseDecimalInverse(m);
      ParseDecimalInverse(n);
    }
  }

  /** The ids allocated while the counter moves from `lo` up to `hi`, in order */
  function IdRange(lo: nat, hi: nat): (ids: seq<string>)
    requires lo <= hi
    ensures |ids| == hi - lo
    ensures forall i :: 0 <= i < |ids| ==> ids[i] == Decimal(lo + i)
  {
    seq(hi - lo, i requires 0 <= i < hi - lo => Decimal(lo + i))
  }

  lemma IdRangeAppend(lo: nat, mid: nat, hi: nat)
    requires lo <= mid <= hi
    ensures IdRange(lo, mid) + IdRange(mid, hi) == IdRange(lo, hi)
  {
  }

  /** No id appears twice in a range of allocated ids */
  lemma IdRangeDistinct(lo: nat, hi: nat)
    requires lo <= hi
    ensures forall i, j :: 0 <= i < j < hi - lo ==> IdRange(lo, hi)[i] != IdRange(lo, hi)[j]
  {
    forall i, j | 0 <= i < j < hi - lo
      ensures IdRange(lo, hi)[i] != IdRange(lo, hi)[j]
    {
      DecimalInjective(lo + i, lo + j);
    }
  }
}
