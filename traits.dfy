/**
 * Trait derivation from a DNA string, defined once. The cards and pages
 * each carry their own copy of these expressions; their modules prove the
 * copies equal to the definitions here.
 *
 * Every trait reads a fixed slice of the DNA as hexadecimal with
 * `parseInt(slice, 16)` and reduces it with JavaScript's `%`. A slice that
 * does not parse gives NaN, and NaN (or a negative value, from a leading
 * `-`) falls through every `case` to the `default` branch.
 */
module Traits {
  import opened JsRuntime

  /** The background patterns, in `switch` order: case 0 is a plain
      transparent gradient, then diagonal bands, a radial ring, a vertical
      half split, repeating stripes; `default` is the CSS value `none`. */
  datatype Pattern = Transparent | DiagonalBands | RadialRing | HalfSplit | RepeatingStripes | NoPattern

  datatype Element = Fire | Water | Earth | Air | Arcane | Unknown

  /** The raw number `parseInt(dna.substring(from, to), 16) % modulus`. */
  function SliceValue(dna: string, from: nat, to: nat, modulus: nat): JsInt
    requires modulus > 0
  {
    RemJs(ParseInt(Substring(dna, from, to), Base16), modulus)
  }

  function Hue(dna: string): JsInt { SliceValue(dna, 0, 6, 360) }
  function PatternValue(dna: string): JsInt { SliceValue(dna, 6, 10, 5) }
  function ElementValue(dna: string): JsInt { SliceValue(dna, 10, 12, 5) }
  function Affinity(dna: string): JsInt { SliceValue(dna, 12, 14, 100) }

  function PatternOf(value: JsInt): Pattern {
    match value
    case Val(0) => Transparent
    case Val(1) => DiagonalBands
    case Val(2) => RadialRing
    case Val(3) => HalfSplit
    case Val(4) => RepeatingStripes
    case _ => NoPattern
  }

  function ElementOf(value: JsInt): Element {
    match value
    case Val(0) => Fire
    case Val(1) => Water
    case Val(2) => Earth
    case Val(3) => Air
    case Val(4) => Arcane
    case _ => Unknown
  }

  function PatternOfDna(dna: string): Pattern { PatternOf(PatternValue(dna)) }
  function ElementOfDna(dna: string): Element { ElementOf(ElementValue(dna)) }

  /** The hue as the colour helpers write it into CSS. */
  function HslColor(hue: JsInt): string {
    "hsl(" + NumberText(hue) + ", 70%, 80%)"
  }

  /** What every element's display shows: its name, emoji and text colour. */
  function ElementName(e: Element): string {
    match e
    case Fire => "Fire"
    case Water => "Water"
    case Earth => "Earth"
    case Air => "Air"
    case Arcane => "Arcane"
    case Unknown => "Unknown"
  }

  function ElementEmoji(e: Element): string {
    match e
    case Fire => "\U{1F525}"
    case Water => "\U{1F4A7}"
    case Earth => "\U{1F331}"
    case Air => "\U{1F4A8}"
    case Arcane => "\U{2728}"
    case Unknown => "\U{2753}"
  }

  function ElementColor(e: Element): string {
    match e
    case Fire => "text-red-500"
    case Water => "text-blue-500"
    case Earth => "text-green-500"
    case Air => "text-gray-400"
    case Arcane => "text-purple-500"
    case Unknown => "text-gray-500"
  }

  /** The rarity bands, lowest first. */
  datatype RarityBand = Common | Uncommon | Rare | Epic | Legendary

  function RarityBandOf(rarity: int): RarityBand {
    if rarity >= 90 then Legendary
    else if rarity >= 70 then Epic
    else if rarity >= 50 then Rare
    else if rarity >= 30 then Uncommon
    else Common
  }

  function RarityLabel(b: RarityBand): string {
    match b
    case Legendary => "Legendary"
    case Epic => "Epic"
    case Rare => "Rare"
    case Uncommon => "Uncommon"
    case Common => "Common"
  }

  function RarityColor(b: RarityBand): string {
    match b
    case Legendary => "text-purple-600"
    case Epic => "text-blue-600"
    case Rare => "text-green-600"
    case Uncommon => "text-yellow-600"
    case Common => "text-gray-600"
  }

  function BandRank(b: RarityBand): nat {
    match b
    case Common => 0
    case Uncommon => 1
    case Rare => 2
    case Epic => 3
    case Legendary => 4
  }

  /** The five colour tiers of potency and fertility, lowest first. */
  datatype Tier = Lowest | Low | Middle | High | Highest

  /** The tier of a potency or fertility score: thresholds 80, 60, 40, 20. */
  function TierOf(score: int): Tier {
    if score >= 80 then Highest
    else if score >= 60 then High
    else if score >= 40 then Middle
    else if score >= 20 then Low
    else Lowest
  }

  function TierRank(t: Tier): nat {
    match t
    case Lowest => 0
    case Low => 1
    case Middle => 2
    case High => 3
    case Highest => 4
  }

  // ---------------------------------------------------------------------
  // Properties

  /** A reduced slice whose first character is a hexadecimal digit lies in
      [0, modulus); it is NaN only for a bare `0x` prefix. */
  lemma SliceValueInRange(dna: string, from: nat, to: nat, modulus: nat)
    requires modulus > 0
    requires var s := Substring(dna, from, to); |s| > 0 && IsDigit(s[0], 16)
    ensures var s := Substring(dna, from, to);
      SliceValue(dna, from, to, modulus).Val? <==> !(HexPrefix(s) && (|s| == 2 || !IsDigit(s[2], 16)))
    ensures SliceValue(dna, from, to, modulus).Val? ==> 0 <= SliceValue(dna, from, to, modulus).v < modulus
  {
    ParseStartingWithDigit(Substring(dna, from, to), Base16);
  }

  /** The hue is in [0, 360) whenever the DNA starts with a hexadecimal
      digit and not with `0x`. */
  lemma HueInRange(dna: string)
    requires |dna| > 0 && IsDigit(dna[0], 16) && !HexPrefix(dna)
    ensures Hue(dna).Val? && 0 <= Hue(dna).v < 360
  {
    var s := Substring(dna, 0, 6);
    assert s[0] == dna[0];
    assert |s| >= 2 ==> s[1] == dna[1];
    SliceValueInRange(dna, 0, 6, 360);
  }

  /** The hue depends on the first six characters only. */
  lemma HueDependsOnPrefix(dna: string, suffix: string)
    requires |dna| >= 6
    ensures Hue(dna + suffix) == Hue(dna[..6])
  {
    assert Substring(dna + suffix, 0, 6) == dna[..6] == Substring(dna[..6], 0, 6);
  }

  /** The `default` pattern is chosen exactly when the slice does not parse
      or parses to a negative number that is not a multiple of 5. */
  lemma PatternDefaultIff(dna: string)
    ensures PatternOfDna(dna) == NoPattern <==> PatternValue(dna).NaN? || PatternValue(dna).v < 0
  {
  }

  /** In particular, a DNA string of at most six characters has an empty
      pattern slice and so no pattern. */
  lemma ShortDnaHasNoPattern(dna: string)
    requires |dna| <= 6
    ensures PatternValue(dna).NaN? && PatternOfDna(dna) == NoPattern
  {
    assert Substring(dna, 6, 10) == [];
  }

  /** A pattern slice that starts with a hexadecimal digit, and is not a
      bare `0x` prefix, selects one of the five real patterns. */
  lemma ParsedPatternIsReal(dna: string)
    requires var s := Substring(dna, 6, 10); |s| > 0 && IsDigit(s[0], 16)
    requires var s := Substring(dna, 6, 10); !(HexPrefix(s) && (|s| == 2 || !IsDigit(s[2], 16)))
    ensures PatternOfDna(dna) != NoPattern
  {
    SliceValueInRange(dna, 6, 10, 5);
  }

  /** `Unknown` is the element exactly when the slice does not parse or
      parses to a negative number that is not a multiple of 5. */
  lemma ElementUnknownIff(dna: string)
    ensures ElementOfDna(dna) == Unknown <==> ElementValue(dna).NaN? || ElementValue(dna).v < 0
  {
  }

  /** An element slice that starts with a hexadecimal digit names one of
      the five elements. The slice has at most two characters, so it can
      never hold a `0x` prefix with digits after it, and the exception is
      the bare `0x` itself. */
  lemma ParsedElementIsKnown(dna: string)
    requires var s := Substring(dna, 10, 12); |s| > 0 && IsDigit(s[0], 16) && !HexPrefix(s)
    ensures ElementOfDna(dna) != Unknown
  {
    SliceValueInRange(dna, 10, 12, 5);
  }

  /** Affinity is in [0, 100) for a slice that starts with a hexadecimal
      digit and is not a bare `0x`. */
  lemma AffinityInRange(dna: string)
    requires var s := Substring(dna, 12, 14); |s| > 0 && IsDigit(s[0], 16) && !HexPrefix(s)
    ensures Affinity(dna).Val? && 0 <= Affinity(dna).v < 100
  {
    SliceValueInRange(dna, 12, 14, 100);
  }

  lemma HexSlice(dna: string, from: nat, to: nat)
    requires AllDigits(dna, 16) && from < to <= |dna|
    ensures var s := Substring(dna, from, to); |s| > 0 && IsDigit(s[0], 16) && !HexPrefix(s)
  {
    var s := Substring(dna, from, to);
    assert s == dna[from..to];
    assert s[0] == dna[from];
    if |s| >= 2 { assert s[1] == dna[from + 1]; }
  }

  /** A DNA string of at least 14 hexadecimal digits has every trait
      defined: a hue in [0, 360), a real pattern, a known element and an
      affinity in [0, 100). */
  lemma HexDnaHasAllTraits(dna: string)
    requires AllDigits(dna, 16) && |dna| >= 14
    ensures Hue(dna).Val? && 0 <= Hue(dna).v < 360
    ensures PatternOfDna(dna) != NoPattern
    ensures ElementOfDna(dna) != Unknown
    ensures Affinity(dna).Val? && 0 <= Affinity(dna).v < 100
  {
    HexSlice(dna, 0, 6);
    SliceValueInRange(dna, 0, 6, 360);
    HexSlice(dna, 6, 10);
    ParsedPatternIsReal(dna);
    HexSlice(dna, 10, 12);
    ParsedElementIsKnown(dna);
    HexSlice(dna, 12, 14);
    AffinityInRange(dna);
  }

  /** The DNA a context provider really supplies is the decimal text of a
      256-bit integer, which is still read as hexadecimal; decimal digits
      are hexadecimal digits, so with at least 14 of them every trait is
      defined. */
  lemma DecimalDnaHasAllTraits(dna: string)
    requires AllDigits(dna, 10) && |dna| >= 14
    ensures Hue(dna).Val? && 0 <= Hue(dna).v < 360
    ensures PatternOfDna(dna) != NoPattern
    ensures ElementOfDna(dna) != Unknown
    ensures Affinity(dna).Val? && 0 <= Affinity(dna).v < 100
  {
    assert AllDigits(dna, 16);
    HexDnaHasAllTraits(dna);
  }

  /** Label and colour tell the bands apart equally well: two rarities get
      the same colour exactly when they get the same label. */
  lemma RarityColorFollowsLabel(r1: int, r2: int)
    ensures RarityColor(RarityBandOf(r1)) == RarityColor(RarityBandOf(r2))
        <==> RarityLabel(RarityBandOf(r1)) == RarityLabel(RarityBandOf(r2))
  {
  }

  /** The hue written into the colour string reads back as the hue. */
  lemma HslColorShowsHue(hue: JsInt)
    ensures hue.NaN? ==> HslColor(hue) == "hsl(NaN, 70%, 80%)"
    ensures hue.Val? ==> ParseInt(HslColor(hue)[4..], Unspecified) == hue
  {
    if hue.Val? {
      assert HslColor(hue)[4..] == IntToString(hue.v) + ", 70%, 80%)";
      ParseIntToString(hue.v, ", 70%, 80%)");
    }
  }

  /** A higher rarity never gets a lower band. */
  lemma RarityBandMonotone(r1: int, r2: int)
    requires r1 <= r2
    ensures BandRank(RarityBandOf(r1)) <= BandRank(RarityBandOf(r2))
  {
  }

  /** Each band is exactly one interval of rarity scores. */
  lemma RarityBandIntervals(r: int)
    ensures RarityBandOf(r) == Legendary <==> 90 <= r
    ensures RarityBandOf(r) == Epic <==> 70 <= r < 90
    ensures RarityBandOf(r) == Rare <==> 50 <= r < 70
    ensures RarityBandOf(r) == Uncommon <==> 30 <= r < 50
    ensures RarityBandOf(r) == Common <==> r < 30
  {
  }

  /** A higher potency or fertility never gets a lower tier. */
  lemma TierMonotone(s1: int, s2: int)
    requires s1 <= s2
    ensures TierRank(TierOf(s1)) <= TierRank(TierOf(s2))
  {
  }

  lemma TierIntervals(s: int)
    ensures TierOf(s) == Highest <==> 80 <= s
    ensures TierOf(s) == High <==> 60 <= s < 80
    ensures TierOf(s) == Middle <==> 40 <= s < 60
    ensures TierOf(s) == Low <==> 20 <= s < 40
    ensures TierOf(s) == Lowest <==> s < 20
  {
  }
}
