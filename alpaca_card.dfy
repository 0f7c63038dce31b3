/**
 * The alpaca card: the DNA-derived look (background colour and pattern),
 * the rarity badge, the short "fed/groomed ... ago" texts, and the Feed,
 * Groom and Shear buttons, each enabled only once its cooldown has
 * passed. The current time `now` (Unix
 * seconds) is a parameter.
 */
module AlpacaCard {
  import opened JsRuntime
  import opened Wrappers
  import Traits
  import opened TimeText

  /** The calls the card's buttons make into the alpaca context. */
  datatype Request = FeedAlpaca(id: nat) | GroomAlpaca(id: nat) | ShearAlpaca(id: nat)

  datatype Button = Feed | Groom | Shear

  const FeedingCooldown: int := 4 * 3600
  const GroomingCooldown: int := 12 * 3600
  const ShearingCooldown: int := 3 * 86400

  /** `generateColor`: the first six DNA characters read as hexadecimal,
      modulo 360, as an HSL hue. */
  function GenerateColor(dna: string): string {
    var hue := RemJs(ParseInt(Substring(dna, 0, 6), Base16), 360);
    "hsl(" + NumberText(hue) + ", 70%, 80%)"
  }

  /** `generatePattern`: characters 6..10 as hexadecimal, modulo 5. */
  function GeneratePattern(dna: string): Traits.Pattern {
    match RemJs(ParseInt(Substring(dna, 6, 10), Base16), 5)
    case Val(0) => Traits.Transparent
    case Val(1) => Traits.DiagonalBands
    case Val(2) => Traits.RadialRing
    case Val(3) => Traits.HalfSplit
    case Val(4) => Traits.RepeatingStripes
    case _ => Traits.NoPattern
  }

  /** `getTimeSince`, short wording. */
  function GetTimeSince(now: int, timestamp: int): string {
    ShortAgo(Bucket(now - timestamp))
  }

  predicate NeedsFeeding(now: int, lastFed: int) {
    now - lastFed > FeedingCooldown
  }

  predicate NeedsGrooming(now: int, lastGroomed: int) {
    now - lastGroomed > GroomingCooldown
  }

  predicate CanBeSheared(now: int, lastSheared: int) {
    now - lastSheared > ShearingCooldown
  }

  function GetRarityColor(rarity: int): string {
    if rarity >= 90 then "text-purple-600"
    else if rarity >= 70 then "text-blue-600"
    else if rarity >= 50 then "text-green-600"
    else if rarity >= 30 then "text-yellow-600"
    else "text-gray-600"
  }

  function GetRarityLabel(rarity: int): string {
    if rarity >= 90 then "Legendary"
    else if rarity >= 70 then "Epic"
    else if rarity >= 50 then "Rare"
    else if rarity >= 30 then "Uncommon"
    else "Common"
  }

  /** Whether a button is enabled (`disabled={!needs...}`). */
  predicate Enabled(button: Button, now: int, lastFed: int, lastGroomed: int, lastSheared: int) {
    match button
    case Feed => NeedsFeeding(now, lastFed)
    case Groom => NeedsGrooming(now, lastGroomed)
    case Shear => CanBeSheared(now, lastSheared)
  }

  /** A click on a button: a disabled button does nothing, an enabled one
      calls the context with the card's id. */
  function Click(button: Button, id: nat, now: int, lastFed: int, lastGroomed: int, lastSheared: int): (r: Option<Request>)
    ensures r.Some? <==> Enabled(button, now, lastFed, lastGroomed, lastSheared)
    ensures r.Some? ==> r.value.id == id
    ensures r.Some? ==> (r.value.FeedAlpaca? <==> button == Feed) && (r.value.ShearAlpaca? <==> button == Shear)
  {
    if !Enabled(button, now, lastFed, lastGroomed, lastSheared) then None
    else match button
      case Feed => Some(FeedAlpaca(id))
      case Groom => Some(GroomAlpaca(id))
      case Shear => Some(ShearAlpaca(id))
  }

  /** The "Details" link target. */
  function DetailsPath(id: nat): string {
    "/alpaca/" + ToDecimal(id)
  }

  // ---------------------------------------------------------------------
  // Properties

  /** This card's copies of the trait expressions agree with the shared
      trait definitions. */
  lemma ColorMatchesShared(dna: string)
    ensures GenerateColor(dna) == Traits.HslColor(Traits.Hue(dna))
  {
  }

  lemma PatternMatchesShared(dna: string)
    ensures GeneratePattern(dna) == Traits.PatternOfDna(dna)
  {
    var v := Traits.PatternValue(dna);
    assert RemJs(ParseInt(Substring(dna, 6, 10), Base16), 5) == v;
  }

  lemma RarityMatchesShared(rarity: int)
    ensures GetRarityLabel(rarity) == Traits.RarityLabel(Traits.RarityBandOf(rarity))
    ensures GetRarityColor(rarity) == Traits.RarityColor(Traits.RarityBandOf(rarity))
  {
  }

  /** Each button opens one second after its cooldown has fully passed,
      not at the boundary itself. */
  lemma CooldownBoundaries(t: int)
    ensures !NeedsFeeding(t + 14400, t) && NeedsFeeding(t + 14401, t)
    ensures !NeedsGrooming(t + 43200, t) && NeedsGrooming(t + 43201, t)
    ensures !CanBeSheared(t + 259200, t) && CanBeSheared(t + 259201, t)
  {
  }

  /** Once enabled, a button stays enabled as time passes. */
  lemma EnabledStaysEnabled(button: Button, now1: int, now2: int, lastFed: int, lastGroomed: int, lastSheared: int)
    requires now1 <= now2
    requires Enabled(button, now1, lastFed, lastGroomed, lastSheared)
    ensures Enabled(button, now2, lastFed, lastGroomed, lastSheared)
  {
  }

  /** The cooldowns are nested: measured from the same moment, shearing
      opens last, grooming before it and feeding first. */
  lemma CooldownsNested(now: int, t: int)
    ensures CanBeSheared(now, t) ==> NeedsGrooming(now, t)
    ensures NeedsGrooming(now, t) ==> NeedsFeeding(now, t)
  {
  }

  /** The short text reads back as the elapsed time in its unit, floor
      division, with the unit letter after it. */
  lemma TimeSinceShowsElapsed(now: int, timestamp: int)
    ensures var b := Bucket(now - timestamp);
      ParseInt(GetTimeSince(now, timestamp), Unspecified) == Val(b.count)
    ensures now - timestamp < 60 ==> GetTimeSince(now, timestamp) == IntToString(now - timestamp) + "s ago"
    ensures 86400 <= now - timestamp ==> GetTimeSince(now, timestamp) == IntToString((now - timestamp) / 86400) + "d ago"
  {
    WordingsShowSameCount(Bucket(now - timestamp));
  }
}
