/**
 * `format_number` of `server/utils/utils.py`: the number is divided by
 * 1000 until it is below 1000 or the largest suffix is reached, and the
 * suffix of `" KMGTP"` at that division count is chosen. The two-decimal
 * rendering of the scaled number is not modelled.
 */
module ServerUtils {

  const Suffixes: string := " KMGTP"

  /** `1000 ** k` */
  function Pow1000(k: nat): (p: real)
    ensures p >= 1.0
  {
    if k == 0 then 1.0 else 1000.0 * Pow1000(k - 1)
  }

  /**
   * The scaled number and the suffix index: `value * 1000^k` is the
   * number, the scaled value is below 1000 unless the last suffix was
   * reached, and it is at least 1 once a division was made.
   */
  method FormatNumber(number: real) returns (value: real, k: nat, suffix: char)
    ensures k < |Suffixes| && suffix == Suffixes[k]
    ensures value * Pow1000(k) == number
    ensures k < |Suffixes| - 1 ==> value < 1000.0
    ensures k > 0 ==> value >= 1.0
  {
    value := number;
    k := 0;
    while value >= 1000.0 && k < |Suffixes| - 1
      invariant k < |Suffixes|
      invariant value * Pow1000(k) == number
      invariant k > 0 ==> value >= 1.0
    {
      value := value / 1000.0;
      k := k + 1;
    }
    suffix := Suffixes[k];
  }

  /**
   * The conditions `FormatNumber` ensures fix the suffix index: two
   * indices that both satisfy them are equal.
   */
  lemma SuffixIndexUnique(number: real, k1: nat, k2: nat)
    requires k1 < |Suffixes| && k2 < |Suffixes|
    requires k1 < |Suffixes| - 1 ==> number < 1000.0 * Pow1000(k1)
    requires k1 > 0 ==> number >= Pow1000(k1)
    requires k2 < |Suffixes| - 1 ==> number < 1000.0 * Pow1000(k2)
    requires k2 > 0 ==> number >= Pow1000(k2)
    ensures k1 == k2
  {
    PowStrict(k1, k2);
    PowStrict(k2, k1);
  }

  /** A larger index is at least a thousand times the power of a smaller one. */
  lemma PowStrict(a: nat, b: nat)
    ensures a < b ==> 1000.0 * Pow1000(a) <= Pow1000(b)
  {
    if a < b {
      PowMonotone(a + 1, b);
    }
  }

  lemma {:induction false} PowMonotone(a: nat, b: nat)
    requires a <= b
    ensures Pow1000(a) <= Pow1000(b)
    decreases b
  {
    if a < b {
      PowMonotone(a, b - 1);
    }
  }
}
