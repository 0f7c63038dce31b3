/**
 * The wizard card: the DNA-derived look (background colour, pattern,
 * element badge), the rarity badge, the short "trained/meditated ... ago"
 * texts, and the Train, Meditate and Harvest Mana buttons, each enabled
 * only once its cooldown has passed. The current time `now` (Unix
 * seconds) is a parameter.
 */
module WizardCard {
  import opened JsRuntime
  import opened Wrappers
  import Traits
  import opened TimeText

  /** `getWizardElement`'s result: display name, emoji and text colour. */
  datatype ElementStyle = ElementStyle(name: string, emoji: string, color: string)

  /** The calls the card's buttons make into the wizard context. */
  datatype Request = TrainWizard(id: nat) | MeditateWizard(id: nat) | HarvestMana(id: nat)

  datatype Button = Train | Meditate | Harvest

  const TrainingCooldown: int := 4 * 3600
  const MeditationCooldown: int := 12 * 3600
  const HarvestCooldown: int := 3 * 86400

  /** `generateColor`: the first six DNA characters read as hexadecimal,
      modulo 360, as an HSL hue. */
  function GenerateColor(dna: string): string {
    var hue := RemJs(ParseInt(Substring(dna, 0, 6), Base16), 360);
    "hsl(" + NumberText(hue) + ", 70%, 80%)"
  }

  /** `generatePattern`: characters 6..10 as hexadecimal, modulo 5. */
  function GeneratePattern(dna: string): Traits.Pattern {
    match RemJs(ParseInt(Substring(dna, 6, 10), Base16), 5)
    case Val(0) => Traits.Transparent
    case Val(1) => Traits.DiagonalBands
    case Val(2) => Traits.RadialRing
    case Val(3) => Traits.HalfSplit
    case Val(4) => Traits.RepeatingStripes
    case _ => Traits.NoPattern
  }

  /** `getTimeSince`, short wording. */
  function GetTimeSince(now: int, timestamp: int): string {
    ShortAgo(Bucket(now - timestamp))
  }

  predicate NeedsTraining(now: int, lastTrained: int) {
    now - lastTrained > TrainingCooldown
  }

  predicate NeedsMeditation(now: int, lastMeditated: int) {
    now - lastMeditated > MeditationCooldown
  }

  predicate CanHarvestMana(now: int, lastHarvested: int) {
    now - lastHarvested > HarvestCooldown
  }

  function GetRarityColor(rarity: int): string {
    if rarity >= 90 then "text-purple-600"
    else if rarity >= 70 then "text-blue-600"
    else if rarity >= 50 then "text-green-600"
    else if rarity >= 30 then "text-yellow-600"
    else "text-gray-600"
  }

  function GetRarityLabel(rarity: int): string {
    if rarity >= 90 then "Legendary"
    else if rarity >= 70 then "Epic"
    else if rarity >= 50 then "Rare"
    else if rarity >= 30 then "Uncommon"
    else "Common"
  }

  /** `getWizardElement`: characters 10..12 as hexadecimal, modulo 5. */
  function GetWizardElement(dna: string): ElementStyle {
    match RemJs(ParseInt(Substring(dna, 10, 12), Base16), 5)
    case Val(0) => ElementStyle("Fire", "\U{1F525}", "text-red-500")
    case Val(1) => ElementStyle("Water", "\U{1F4A7}", "text-blue-500")
    case Val(2) => ElementStyle("Earth", "\U{1F331}", "text-green-500")
    case Val(3) => ElementStyle("Air", "\U{1F4A8}", "text-gray-400")
    case Val(4) => ElementStyle("Arcane", "\U{2728}", "text-purple-500")
    case _ => ElementStyle("Unknown", "\U{2753}", "text-gray-500")
  }

  /** Whether a button is enabled (`disabled={!needs...}`). */
  predicate Enabled(button: Button, now: int, lastTrained: int, lastMeditated: int, lastHarvested: int) {
    match button
    case Train => NeedsTraining(now, lastTrained)
    case Meditate => NeedsMeditation(now, lastMeditated)
    case Harvest => CanHarvestMana(now, lastHarvested)
  }

  /** A click on a button: a disabled button does nothing, an enabled one
      calls the context with the card's id. */
  function Click(button: Button, id: nat, now: int, lastTrained: int, lastMeditated: int, lastHarvested: int): (r: Option<Request>)
    ensures r.Some? <==> Enabled(button, now, lastTrained, lastMeditated, lastHarvested)
    ensures r.Some? ==> r.value.id == id
    ensures r.Some? ==> (r.value.TrainWizard? <==> button == Train) && (r.value.HarvestMana? <==> button == Harvest)
  {
    if !Enabled(button, now, lastTrained, lastMeditated, lastHarvested) then None
    else match button
      case Train => Some(TrainWizard(id))
      case Meditate => Some(MeditateWizard(id))
      case Harvest => Some(HarvestMana(id))
  }

  /** The "Details" link target. */
  function DetailsPath(id: nat): string {
    "/wizard/" + ToDecimal(id)
  }

  // ---------------------------------------------------------------------
  // Properties

  /** This card's copies of the trait expressions agree with the shared
      trait definitions. */
  lemma ColorMatchesShared(dna: string)
    ensures GenerateColor(dna) == Traits.HslColor(Traits.Hue(dna))
  {
  }

  lemma PatternMatchesShared(dna: string)
    ensures GeneratePattern(dna) == Traits.PatternOfDna(dna)
  {
    var v := Traits.PatternValue(dna);
    assert RemJs(ParseInt(Substring(dna, 6, 10), Base16), 5) == v;
  }

  lemma ElementMatchesShared(dna: string)
    ensures var e := Traits.ElementOfDna(dna);
      GetWizardElement(dna) == ElementStyle(Traits.ElementName(e), Traits.ElementEmoji(e), Traits.ElementColor(e))
  {
    var v := Traits.ElementValue(dna);
    assert RemJs(ParseInt(Substring(dna, 10, 12), Base16), 5) == v;
  }

  lemma RarityMatchesShared(rarity: int)
    ensures GetRarityLabel(rarity) == Traits.RarityLabel(Traits.RarityBandOf(rarity))
    ensures GetRarityColor(rarity) == Traits.RarityColor(Traits.RarityBandOf(rarity))
  {
  }

  /** Each button opens one second after its cooldown has fully passed,
      not at the boundary itself. */
  lemma CooldownBoundaries(t: int)
    ensures !NeedsTraining(t + 14400, t) && NeedsTraining(t + 14401, t)
    ensures !NeedsMeditation(t + 43200, t) && NeedsMeditation(t + 43201, t)
    ensures !CanHarvestMana(t + 259200, t) && CanHarvestMana(t + 259201, t)
  {
  }

  /** Once enabled, a button stays enabled as time passes. */
  lemma EnabledStaysEnabled(button: Button, now1: int, now2: int, lastTrained: int, lastMeditated: int, lastHarvested: int)
    requires now1 <= now2
    requires Enabled(button, now1, lastTrained, lastMeditated, lastHarvested)
    ensures Enabled(button, now2, lastTrained, lastMeditated, lastHarvested)
  {
  }

  /** The cooldowns are nested: measured from the same moment, harvesting
      opens last, meditating before it and training first. */
  lemma CooldownsNested(now: int, t: int)
    ensures CanHarvestMana(now, t) ==> NeedsMeditation(now, t)
    ensures NeedsMeditation(now, t) ==> NeedsTraining(now, t)
  {
  }

  /** The short text reads back as the elapsed time in its unit, floor
      division, with the unit letter after it. */
  lemma TimeSinceShowsElapsed(now: int, timestamp: int)
    ensures var b := Bucket(now - timestamp);
      ParseInt(GetTimeSince(now, timestamp), Unspecified) == Val(b.count)
    ensures now - timestamp < 60 ==> GetTimeSince(now, timestamp) == IntToString(now - timestamp) + "s ago"
    ensures 86400 <= now - timestamp ==> GetTimeSince(now, timestamp) == IntToString((now - timestamp) / 86400) + "d ago"
  {
    WordingsShowSameCount(Bucket(now - timestamp));
  }
}
