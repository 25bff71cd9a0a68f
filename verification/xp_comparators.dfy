/** The two channel orders of rfxp besides `compareTo`: by name and by frequency. */
module XpComparators {
  import opened XpChannel
  import Text

  /** `ChannelNameComparator.compare`: names ignoring case, then frequency. */
  function NameCompare(a: Channel, b: Channel): (r: int)
    ensures Text.CompareIgnoreCase(a.name, b.name) != 0 ==> r == Text.CompareIgnoreCase(a.name, b.name)
    ensures Text.CompareIgnoreCase(a.name, b.name) == 0 ==> r == CompareTo(a, b)
  {
    var result := Text.CompareIgnoreCase(a.name, b.name);
    if result == 0 then CompareTo(a, b) else result
  }

  /** The name order is zero exactly for equal names (ignoring case) on equal
      frequencies. */
  lemma NameCompareZero(a: Channel, b: Channel)
    ensures NameCompare(a, b) == 0 <==> Text.EqualIgnoreCase(a.name, b.name) && a.freq == b.freq
  {
    Text.CompareIgnoreCaseZero(a.name, b.name);
  }

  /** Swapping the arguments flips the sign of the name order. */
  lemma NameCompareAntisymmetric(a: Channel, b: Channel)
    ensures NameCompare(a, b) < 0 <==> NameCompare(b, a) > 0
    ensures NameCompare(a, b) == 0 <==> NameCompare(b, a) == 0
  {
    Text.CompareIgnoreCaseAntisymmetric(a.name, b.name);
  }

  /** The name order reads only the names and the frequencies: id, equipment, range
      and conflicts never change it. */
  lemma NameCompareReadsNameAndFrequency(a: Channel, b: Channel, a2: Channel, b2: Channel)
    requires a2.name == a.name && a2.freq == a.freq && b2.name == b.name && b2.freq == b.freq
    ensures NameCompare(a2, b2) == NameCompare(a, b)
  {
  }

  /** `ChannelFrequencyComparator.compare`: `Integer.compare` of the frequencies, the
      same order as `compareTo`. */
  function FrequencyCompare(a: Channel, b: Channel): (r: int)
    ensures r < 0 <==> a.freq < b.freq
    ensures r == 0 <==> a.freq == b.freq
    ensures r > 0 <==> a.freq > b.freq
    ensures r == -Text.IntCompare(b.freq, a.freq)
    ensures r == CompareTo(a, b)
  {
    Text.IntCompare(a.freq, b.freq)
  }
}
