/**
 * The local file names of full-resolution captures: `image-%03d.jpg`
 * formatted from the shared capture counter (examples/sample-photobooth.c,
 * lines 104 and 147). The counter is never negative, so only the
 * non-negative branch of printf's `%d` is needed.
 */
module ImageNames {
  import opened Wrappers

  const IMAGE_PREFIX := "image-"
  const IMAGE_SUFFIX := ".jpg"

  predicate IsDigit(c: char) {
    '0' <= c <= '9'
  }

  predicate AllDigits(s: string) {
    forall i :: 0 <= i < |s| ==> IsDigit(s[i])
  }

  function DigitChar(d: nat): (c: char)
    requires d < 10
    ensures IsDigit(c)
  {
    ('0' as int + d) as char
  }

  function DigitValue(c: char): (d: nat)
    requires IsDigit(c)
    ensures d < 10
  {
    c as int - '0' as int
  }

  function Pow10(k: nat): (p: nat)
    ensures p >= 1
  {
    if k == 0 then 1 else 10 * Pow10(k - 1)
  }

  /** The decimal digits of n with no leading zero, as `%d` prints a non-negative int. */
  function Decimal(n: nat): (s: string)
    ensures |s| >= 1 && AllDigits(s)
    ensures s[0] == '0' ==> n == 0
  {
    if n < 10 then [DigitChar(n)] else Decimal(n / 10) + [DigitChar(n % 10)]
  }

  /** The numeric value of a string of decimal digits: the inverse of Decimal. */
  function ValueOf(s: string): nat
    requires AllDigits(s)
  {
    if s == [] then 0 else 10 * ValueOf(s[..|s| - 1]) + DigitValue(s[|s| - 1])
  }

  function Zeros(k: nat): (z: string)
    ensures |z| == k && AllDigits(z)
  {
    seq(k, _ => '0')
  }

  /** `%03d`: the decimal digits of n, left-padded with '0' to at least three characters. */
  function Format03(n: nat): string {
    var digits := Decimal(n);
    if |digits| >= 3 then digits else Zeros(3 - |digits|) + digits
  }

  /** The name `sprintf(output_file, "image-%03d.jpg", n)` writes. */
  function ImageName(n: nat): string {
    IMAGE_PREFIX + Format03(n) + IMAGE_SUFFIX
  }

  /** Reads the counter value back out of a file name; None if it is not an image name. */
  function ImageNumber(name: string): Option<nat> {
    if |name| >= |IMAGE_PREFIX| + |IMAGE_SUFFIX|
       && name[..|IMAGE_PREFIX|] == IMAGE_PREFIX
       && name[|name| - |IMAGE_SUFFIX|..] == IMAGE_SUFFIX
       && AllDigits(name[|IMAGE_PREFIX|..|name| - |IMAGE_SUFFIX|])
    then Some(ValueOf(name[|IMAGE_PREFIX|..|name| - |IMAGE_SUFFIX|]))
    else None
  }

  /** The names of the counter values lo, lo + 1, ..., hi - 1. */
  function ImageNamesBetween(lo: nat, hi: nat): set<string> {
    set k: nat | lo <= k < hi :: ImageName(k)
  }

  /** The names of the counter values lo, lo + 1, ..., hi - 1, in that order. */
  function NameRange(lo: nat, hi: nat): (r: seq<string>)
    requires lo <= hi
    ensures |r| == hi - lo
  {
    seq(hi - lo, i requires 0 <= i < hi - lo => ImageName(lo + i))
  }

  lemma {:induction false} ValueOfDecimal(n: nat)
    ensures ValueOf(Decimal(n)) == n
  {
    if n >= 10 {
      var s := Decimal(n);
      assert s[..|s| - 1] == Decimal(n / 10);
      ValueOfDecimal(n / 10);
    }
  }

  lemma {:induction false} ValueOfZeros(k: nat)
    ensures ValueOf(Zeros(k)) == 0
  {
    if k > 0 {
      assert Zeros(k)[..k - 1] == Zeros(k - 1);
      ValueOfZeros(k - 1);
    }
  }

  /** Leading zeros do not change the value of a digit string. */
  lemma {:induction false} ValueOfPadded(k: nat, s: string)
    requires AllDigits(s)
    ensures AllDigits(Zeros(k) + s) && ValueOf(Zeros(k) + s) == ValueOf(s)
  {
    var t := Zeros(k) + s;
    if s == [] {
      assert t == Zeros(k);
      ValueOfZeros(k);
    } else {
      assert t[..|t| - 1] == Zeros(k) + s[..|s| - 1];
      ValueOfPadded(k, s[..|s| - 1]);
    }
  }

  /** `%03d` keeps the value: reading the padded digits back gives n. */
  lemma Format03Value(n: nat)
    ensures AllDigits(Format03(n)) && ValueOf(Format03(n)) == n
  {
    var digits := Decimal(n);
    ValueOfDecimal(n);
    if |digits| < 3 {
      ValueOfPadded(3 - |digits|, digits);
    }
  }

  /** Round trip: the counter value can be read back out of every image name. */
  lemma ImageNumberOfName(n: nat)
    ensures ImageNumber(ImageName(n)) == Some(n)
  {
    var name := ImageName(n);
    Format03Value(n);
    assert name[..|IMAGE_PREFIX|] == IMAGE_PREFIX;
    assert name[|name| - |IMAGE_SUFFIX|..] == IMAGE_SUFFIX;
    assert name[|IMAGE_PREFIX|..|name| - |IMAGE_SUFFIX|] == Format03(n);
  }

  /** Distinct counter values give distinct names, and equal ones equal names. */
  lemma ImageNameInjective(a: nat, b: nat)
    ensures ImageName(a) == ImageName(b) <==> a == b
  {
    ImageNumberOfName(a);
    ImageNumberOfName(b);
  }

  /** Decimal(n) fits in k digits exactly when n < 10^k. */
  lemma {:induction false} DecimalLength(n: nat, k: nat)
    requires k >= 1
    ensures |Decimal(n)| <= k <==> n < Pow10(k)
  {
    if n >= 10 {
      if k == 1 {
        assert |Decimal(n / 10)| >= 1;
      } else {
        DecimalLength(n / 10, k - 1);
      }
    } else {
      assert Pow10(k) == 10 * Pow10(k - 1);
    }
  }

  /** Image names are at least 13 characters long, and exactly 13 below 1000. */
  lemma ImageNameLength(n: nat)
    ensures |ImageName(n)| >= 13
    ensures |ImageName(n)| == 13 <==> n < 1000
  {
    DecimalLength(n, 3);
  }

  /** The names of a counter range are pairwise distinct: one per value. */
  lemma {:induction false} ImageNamesBetweenSize(lo: nat, hi: nat)
    requires lo <= hi
    ensures |ImageNamesBetween(lo, hi)| == hi - lo
  {
    if lo < hi {
      ImageNamesBetweenSize(lo, hi - 1);
      assert ImageNamesBetween(lo, hi) == ImageNamesBetween(lo, hi - 1) + {ImageName(hi - 1)};
      if ImageName(hi - 1) in ImageNamesBetween(lo, hi - 1) {
        var k: nat :| lo <= k < hi - 1 && ImageName(k) == ImageName(hi - 1);
        ImageNameInjective(k, hi - 1);
      }
    } else {
      assert ImageNamesBetween(lo, hi) == {};
    }
  }

  lemma NameRangeAppend(lo: nat, mid: nat, hi: nat)
    requires lo <= mid <= hi
    ensures NameRange(lo, mid) + NameRange(mid, hi) == NameRange(lo, hi)
  {
  }

  /** A range of counter values hands out pairwise distinct names. */
  lemma NameRangeDistinct(lo: nat, hi: nat)
    requires lo <= hi
    ensures forall i, j :: 0 <= i < j < hi - lo ==> NameRange(lo, hi)[i] != NameRange(lo, hi)[j]
  {
    forall i, j | 0 <= i < j < hi - lo
      ensures NameRange(lo, hi)[i] != NameRange(lo, hi)[j]
    {
      ImageNameInjective(lo + i, lo + j);
    }
  }
}
