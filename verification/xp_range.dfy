/** A named tuning range of an equipment profile (rfxp). */
module XpRange {
  import opened Errors
  import Text

  datatype Range = Range(lo: int, hi: int, name: string) {
    /** `isValidFrequency`: inside the range, both ends included. */
    predicate IsValidFrequency(f: int) {
      lo <= f <= hi
    }
  }

  /** The constructor: a null name is stored as the empty string. */
  function NewRange(lo: int, hi: int, name: Option<string>): (r: Range)
    ensures r.lo == lo && r.hi == hi
    ensures name.None? ==> r.name == ""
    ensures name.Some? ==> r.name == name.value
  {
    Range(lo, hi, if name.None? then "" else name.value)
  }

  /** Both ends belong to a non-empty range, and the frequencies just outside do not. */
  lemma RangeInclusive(r: Range)
    requires r.lo <= r.hi
    ensures r.IsValidFrequency(r.lo) && r.IsValidFrequency(r.hi)
    ensures !r.IsValidFrequency(r.lo - 1) && !r.IsValidFrequency(r.hi + 1)
  {
  }

  /** `compareTo`: by low end, then high end, then name. */
  function Compare(a: Range, b: Range): (r: int)
    ensures a.lo < b.lo ==> r < 0
    ensures a.lo > b.lo ==> r > 0
    ensures a.lo == b.lo && a.hi < b.hi ==> r < 0
    ensures a.lo == b.lo && a.hi > b.hi ==> r > 0
    ensures a.lo == b.lo && a.hi == b.hi ==> r == Text.Compare(a.name, b.name)
  {
    if a.lo != b.lo then Text.IntCompare(a.lo, b.lo)
    else if a.hi != b.hi then Text.IntCompare(a.hi, b.hi)
    else Text.Compare(a.name, b.name)
  }

  /** `compareTo` is zero exactly for ranges with the same ends and name. */
  lemma CompareZeroIffSame(a: Range, b: Range)
    ensures Compare(a, b) == 0 <==> a == b
  {
    Text.CompareZeroIffEqual(a.name, b.name);
  }

  /** Swapping the arguments negates `compareTo`. */
  lemma CompareAntisymmetric(a: Range, b: Range)
    ensures Compare(a, b) == -Compare(b, a)
  {
    Text.CompareAntisymmetric(a.name, b.name);
  }
}
