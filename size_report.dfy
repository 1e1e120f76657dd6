/** The size figures of the log: the unit `format_size` picks
    (pdf-compress.py:210-216) and the reduction percentage
    (pdf-compress.py:193). Sizes are exact rationals here. */
module SizeReport {
  import opened Wrappers

  datatype SizeUnit = B | KB | MB | GB | TB

  /** The units the loop tries, in order; TB is what is left after them. */
  const LoopUnits: seq<SizeUnit> := [B, KB, MB, GB]

  /** 1024^k for k = 0 .. 4. */
  const Scales: seq<int> := [1, 1024, 1024 * 1024, 1024 * 1024 * 1024, 1024 * 1024 * 1024 * 1024]

  /** The loop leaves the k-th unit once the size reaches 1024^(k+1). */
  function Threshold(k: nat): int
    requires k < 4
  {
    Scales[k + 1]
  }

  /** The index of the unit for `size`, read off the integer thresholds
      1024, 1024^2, 1024^3 and 1024^4. */
  function UnitIndexFrom(size: int, k: nat): (r: nat)
    requires k <= 4
    ensures k <= r <= 4
    ensures r < 4 ==> size < Threshold(r)
    ensures forall j :: k <= j < r ==> size >= Threshold(j)
    decreases 4 - k
  {
    if k == 4 then 4
    else if size < Threshold(k) then k
    else UnitIndexFrom(size, k + 1)
  }

  function UnitIndex(size: int): (r: nat)
    ensures r <= 4
    ensures r < 4 ==> size < Threshold(r)
    ensures forall j :: 0 <= j < r ==> size >= Threshold(j)
  {
    UnitIndexFrom(size, 0)
  }

  function UnitOf(size: int): SizeUnit {
    (LoopUnits + [TB])[UnitIndex(size)]
  }

  /** The thresholds determine the unit: an index whose thresholds hold for
      `size` is the one `UnitIndex` picks. */
  lemma UnitIndexUnique(size: int, k: nat)
    requires k <= 4
    requires k < 4 ==> size < Threshold(k)
    requires forall j :: 0 <= j < k ==> size >= Threshold(j)
    ensures UnitIndex(size) == k
  {
  }

  /** A size as the log shows it: a number, printed with one decimal, and
      its unit. */
  datatype SizeText = SizeText(value: real, unit: SizeUnit)

  /** The text for `size`: the unit its thresholds pick, the size counted in
      that unit. */
  function SizeTextOf(size: int): (t: SizeText)
    ensures t.unit == UnitOf(size)
    ensures t.value * Scales[UnitIndex(size)] as real == size as real
  {
    var scale := Scales[UnitIndex(size)] as real;
    assert scale > 0.0;
    SizeText(size as real / scale, UnitOf(size))
  }

  /** The worker's loop: divide by 1024 until the value drops below 1024, at
      most four times. */
  method FormatSize(size: int) returns (t: SizeText)
    ensures t.unit == UnitOf(size)
    ensures t.value * Scales[UnitIndex(size)] as real == size as real
    ensures t == SizeTextOf(size)
  {
    var value := size as real;
    var k := 0;
    while k < |LoopUnits|
      invariant 0 <= k <= 4
      invariant value * Scales[k] as real == size as real
      invariant forall j :: 0 <= j < k ==> size >= Threshold(j)
    {
      assert Scales[k + 1] == 1024 * Scales[k];
      if value < 1024.0 {
        assert size < Threshold(k);
        UnitIndexUnique(size, k);
        t := SizeText(value, LoopUnits[k]);
        FormatSizeText(size, t);
        return;
      }
      assert size >= Threshold(k);
      value := value / 1024.0;
      k := k + 1;
    }
    UnitIndexUnique(size, 4);
    t := SizeText(value, TB);
    FormatSizeText(size, t);
  }

  /** Both describe the same text. */
  lemma FormatSizeText(size: int, t: SizeText)
    requires t.unit == UnitOf(size)
    requires t.value * Scales[UnitIndex(size)] as real == size as real
    ensures t == SizeTextOf(size)
  {
    var scale := Scales[UnitIndex(size)] as real;
    assert scale > 0.0;
    assert t.value == size as real / scale;
  }

  /** A positive factor keeps the sign. */
  lemma MulPositive(x: real, o: real)
    requires o > 0.0
    ensures x > 0.0 ==> x * o > 0.0
    ensures x < 0.0 ==> x * o < 0.0
    ensures x == 0.0 ==> x * o == 0.0
  {
  }

  /** The ratio of two sizes against 1. */
  lemma RatioAgainstOne(c: real, o: real)
    requires c >= 0.0 && o > 0.0
    ensures c / o >= 0.0
    ensures c / o < 1.0 <==> c < o
    ensures c / o == 1.0 <==> c == o
  {
    var q := c / o;
    assert q * o == c;
    assert (q - 1.0) * o == c - o;
    MulPositive(q - 1.0, o);
    MulPositive(q, o);
  }

  /** `(1 - compressed/original) * 100`; `None` is the division by zero an
      empty original raises. */
  function Reduction(original: nat, compressed: nat): (r: Option<real>)
    ensures r.None? <==> original == 0
    ensures r.Some? ==>
      && (r.value > 0.0 <==> compressed < original)
      && (r.value == 0.0 <==> compressed == original)
      && (r.value < 0.0 <==> compressed > original)
    ensures r.Some? ==> r.value <= 100.0
  {
    if original == 0 then None
    else
      var o, c := original as real, compressed as real;
      RatioAgainstOne(c, o);
      Some((1.0 - c / o) * 100.0)
  }
}
