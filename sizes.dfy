/**
 * `format_size`: the human-readable byte count shown beside every record.
 *
 * The source divides a float by 1024.0 until it drops below 1024 or the
 * largest unit (TB) is reached. For an integer byte count every such division
 * is exact, so the model runs the same loop on Dafny's exact `real`s. What is
 * kept is the choice of unit and the scaled value; printing that value with
 * one decimal place is not modelled.
 */
module Sizes {

  /** The unit names, smallest first. */
  const UnitNames: seq<string> := ["B", "KB", "MB", "GB", "TB"]

  /** Index of the largest unit. */
  const MaxUnit: nat := 4

  function Pow1024(i: nat): (r: nat)
    ensures r >= 1
  {
    if i == 0 then 1 else 1024 * Pow1024(i - 1)
  }

  /** What `format_size` produces: the literal "0 B" for zero, otherwise a scaled value and a unit. */
  datatype SizeText = ZeroBytes | Scaled(mantissa: real, unit: string)

  /** The unit chosen for `n` bytes, written as a cascade of thresholds. */
  function UnitIndex(n: nat): (i: nat)
    ensures i <= MaxUnit
    ensures Pow1024(i) <= n || i == 0
    ensures i < MaxUnit ==> n < Pow1024(i + 1)
  {
    assert Pow1024(1) == 1024 && Pow1024(2) == 1048576;
    assert Pow1024(3) == 1073741824 && Pow1024(4) == 1099511627776;
    if n < 1024 then 0
    else if n < 1048576 then 1
    else if n < 1073741824 then 2
    else if n < 1099511627776 then 3
    else 4
  }

  /** `n` bytes expressed in unit `i`. */
  function Scale(n: nat, i: nat): real
  {
    n as real / Pow1024(i) as real
  }

  /** The reference value of `format_size(n)`. */
  function FormattedSize(n: nat): (r: SizeText)
    ensures r.ZeroBytes? <==> n == 0
    ensures r.Scaled? ==> r.unit in UnitNames
  {
    if n == 0 then ZeroBytes
    else
      var i := UnitIndex(n);
      Scaled(Scale(n, i), UnitNames[i])
  }

  /**
   * The source's loop: divide by 1024 while the value is at least 1024 and
   * a larger unit exists.
   */
  method FormatSize(n: nat) returns (r: SizeText)
    ensures r == FormattedSize(n)
  {
    if n == 0 {
      return ZeroBytes;
    }
    var size: real := n as real;
    var i: nat := 0;
    while size >= 1024.0 && i < |UnitNames| - 1
      invariant i <= MaxUnit
      invariant size == Scale(n, i)
      invariant Pow1024(i) <= n
    {
      ScaleStep(n, i);
      size := size / 1024.0;
      i := i + 1;
    }
    ScaleStep(n, i);
    UnitIndexOf(n, i);
    r := Scaled(size, UnitNames[i]);
  }

  /**
   * One more division by 1024 moves to the next unit, and the value is at
   * least 1024 exactly when the byte count reaches that unit.
   */
  lemma ScaleStep(n: nat, i: nat)
    ensures Scale(n, i) / 1024.0 == Scale(n, i + 1)
    ensures Scale(n, i) >= 1024.0 <==> n >= Pow1024(i + 1)
  {
    assert Pow1024(i + 1) as real == 1024.0 * Pow1024(i) as real;
    DivideAgain(n as real, Pow1024(i) as real);
    QuotientAtLeast(n as real, Pow1024(i) as real);
  }

  lemma DivideAgain(a: real, p: real)
    requires p > 0.0
    ensures a / p / 1024.0 == a / (1024.0 * p)
  {
  }

  lemma QuotientAtLeastOne(a: real, p: real)
    requires p > 0.0 && a >= p
    ensures a / p >= 1.0
  {
    var x := a / p;
    assert x * p == a;
  }

  lemma QuotientAtLeast(a: real, p: real)
    requires p > 0.0
    ensures a / p >= 1024.0 <==> a >= 1024.0 * p
  {
    var x := a / p;
    assert x * p == a;
    if x >= 1024.0 {
      assert (x - 1024.0) * p >= 0.0;
    } else {
      assert (1024.0 - x) * p > 0.0;
    }
  }

  /** The unit the loop stops at is the one the threshold cascade picks. */
  lemma UnitIndexOf(n: nat, i: nat)
    requires i <= MaxUnit && Pow1024(i) <= n
    requires i < MaxUnit ==> n < Pow1024(i + 1)
    ensures i == UnitIndex(n)
  {
    assert Pow1024(1) == 1024 && Pow1024(2) == 1048576;
    assert Pow1024(3) == 1073741824 && Pow1024(4) == 1099511627776;
  }

  /** Every non-zero size is shown as a value in [1, 1024) unless it is beyond the TB range. */
  lemma ScaledRange(n: nat)
    requires n > 0
    ensures FormattedSize(n).Scaled?
    ensures 1.0 <= FormattedSize(n).mantissa
    ensures FormattedSize(n).unit != "TB" ==> FormattedSize(n).mantissa < 1024.0
  {
    var i := UnitIndex(n);
    assert FormattedSize(n) == Scaled(Scale(n, i), UnitNames[i]);
    QuotientAtLeastOne(n as real, Pow1024(i) as real);
    if i < MaxUnit {
      assert Pow1024(i + 1) == 1024 * Pow1024(i);
      QuotientAtLeast(n as real, Pow1024(i) as real);
    }
  }

  /** 1536 bytes read as 1.5 KB and 1 GiB as 1.0 GB. */
  lemma FormattedSizeExamples()
    ensures FormattedSize(1536) == Scaled(1.5, "KB")
    ensures FormattedSize(1073741824) == Scaled(1.0, "GB")
  {
    assert Pow1024(1) == 1024;
    assert Pow1024(3) == 1073741824;
  }
}
