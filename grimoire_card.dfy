/**
 * The grimoire card of the academy page. An empty grimoire offers a spell
 * choice and an "Inscribe" button; an inscribed one shows its spell, the
 * time left until it can be cast and when it was last channeled, and then
 * either the caster choice with a "Cast Spell" button (once the cast time
 * has come) or a "Channel Magic" button. `now` (Unix seconds) and the
 * player's spell count are parameters.
 */
module GrimoireCard {
  import opened JsRuntime
  import opened Wrappers
  import opened Records
  import Traits
  import opened TimeText
  import TextEncoding

  /** The calls the card makes into the wizard context. */
  datatype Request =
    | InscribeSpell(grimoireId: nat, spellType: string)
    | ChannelMagic(grimoireId: nat)
    | CastSpell(grimoireId: nat, wizardId: nat)

  /** The lower half of the card. */
  datatype Panel = InscriptionPanel | CastingPanel | ChannelingPanel

  datatype Button = Inscribe | Cast | Channel

  /** The card's own state: the chosen spell type and caster. */
  datatype CardState = CardState(selectedSpell: string, selectedWizard: Option<nat>)

  const InitialState: CardState := CardState("Fireball", None)

  /** The spell types the inscription choice offers. */
  const SpellTypes: seq<string> := ["Fireball", "Frostbolt", "Arcane Missile", "Healing"]

  const ChannelingCooldown: int := 4 * 3600

  /** `getTimeUntilCast` */
  function GetTimeUntilCast(now: int, g: Grimoire): string {
    if !g.isInscribed then ""
    else if now >= g.castTime then "Ready to cast!"
    else Countdown(Bucket(g.castTime - now))
  }

  /** `getTimeSinceChanneled` */
  function GetTimeSinceChanneled(now: int, g: Grimoire): string {
    if !g.isInscribed || g.lastChanneled == 0 then "Not channeled yet"
    else LongAgo(Bucket(now - g.lastChanneled))
  }

  predicate NeedsChanneling(now: int, g: Grimoire) {
    g.isInscribed && now - g.lastChanneled > ChannelingCooldown
  }

  predicate ReadyToCast(now: int, g: Grimoire) {
    g.isInscribed && now >= g.castTime
  }

  function PanelOf(now: int, g: Grimoire): (p: Panel)
    ensures p == InscriptionPanel <==> !g.isInscribed
    ensures p == CastingPanel <==> ReadyToCast(now, g)
    ensures p == ChannelingPanel <==> g.isInscribed && now < g.castTime
  {
    if !g.isInscribed then InscriptionPanel
    else if ReadyToCast(now, g) then CastingPanel
    else ChannelingPanel
  }

  function SelectSpell(state: CardState, spell: string): (r: CardState)
    ensures r.selectedSpell == spell && r.selectedWizard == state.selectedWizard
  {
    state.(selectedSpell := spell)
  }

  /** The caster choice: `e.target.value ? Number(e.target.value) : ''`,
      so the placeholder clears the selection. */
  function SelectWizard(state: CardState, choice: Choice): (r: CardState)
    ensures r.selectedSpell == state.selectedSpell
    ensures r.selectedWizard.None? <==> choice.Placeholder?
    ensures choice.Chosen? ==> r.selectedWizard == Some(choice.id)
  {
    state.(selectedWizard := if choice.Placeholder? then None else Some(choice.id))
  }

  /** `handleInscribe` */
  function HandleInscribe(g: Grimoire, state: CardState, spells: int): Option<Request> {
    if spells > 0 then Some(InscribeSpell(g.id, state.selectedSpell)) else None
  }

  /** `handleCast` */
  function HandleCast(g: Grimoire, state: CardState): Option<Request> {
    if state.selectedWizard.Some? then Some(CastSpell(g.id, state.selectedWizard.value)) else None
  }

  /** The `disabled` attribute of each button. */
  predicate Disabled(button: Button, now: int, g: Grimoire, state: CardState, spells: int) {
    match button
    case Inscribe => spells <= 0
    case Cast => state.selectedWizard.None?
    case Channel => !NeedsChanneling(now, g)
  }

  predicate Shown(button: Button, panel: Panel) {
    match button
    case Inscribe => panel == InscriptionPanel
    case Cast => panel == CastingPanel
    case Channel => panel == ChannelingPanel
  }

  /** A click: only a shown, enabled button does anything, and then it
      runs its handler. */
  function Press(button: Button, now: int, g: Grimoire, state: CardState, spells: int): (r: Option<Request>)
    ensures r.Some? <==> match button
      case Inscribe => !g.isInscribed && spells > 0
      case Cast => ReadyToCast(now, g) && state.selectedWizard.Some?
      case Channel => g.isInscribed && now < g.castTime && now - g.lastChanneled > ChannelingCooldown
    ensures r.Some? ==> r.value.grimoireId == g.id
    ensures r.Some? && button == Inscribe ==> r.value == InscribeSpell(g.id, state.selectedSpell)
    ensures r.Some? && button == Cast ==> r.value == CastSpell(g.id, state.selectedWizard.value)
    ensures r.Some? && button == Channel ==> r.value == ChannelMagic(g.id)
  {
    if !Shown(button, PanelOf(now, g)) || Disabled(button, now, g, state, spells) then None
    else match button
      case Inscribe => HandleInscribe(g, state, spells)
      case Cast => HandleCast(g, state)
      case Channel => Some(ChannelMagic(g.id))
  }

  function GetPotencyColor(potency: int): string {
    if potency >= 80 then "text-purple-600"
    else if potency >= 60 then "text-blue-600"
    else if potency >= 40 then "text-green-600"
    else if potency >= 20 then "text-yellow-600"
    else "text-red-600"
  }

  /** `getSpellEmoji` as the file spells it: each emoji is stored as the
      characters its UTF-8 bytes stand for in Mac OS Roman. */
  function GetSpellEmojiAsWritten(g: Grimoire): string {
    if !g.isInscribed then ""
    else match ToLower(g.spellType)
      case "fireball" => "\U{F8FF}\U{FC}\U{EE}\U{2022}"
      case "frostbolt" => "\U{201A}\U{F9}\U{D1}\U{D4}\U{220F}\U{E8}"
      case "arcane missile" => "\U{201A}\U{FA}\U{AE}"
      case "healing" => "\U{F8FF}\U{FC}\U{ED}\U{F6}"
      case _ => "\U{F8FF}\U{FC}\U{EC}\U{FA}"
  }

  /** `getSpellEmoji` with the emoji it evidently means: fire, snowflake,
      sparkles, green heart, scroll. */
  function GetSpellEmoji(g: Grimoire): string {
    if !g.isInscribed then ""
    else match ToLower(g.spellType)
      case "fireball" => "\U{1F525}"
      case "frostbolt" => "\U{2744}\U{FE0F}"
      case "arcane missile" => "\U{2728}"
      case "healing" => "\U{1F49A}"
      case _ => "\U{1F4DC}"
  }

  // ---------------------------------------------------------------------
  // Properties

  /** The cast line is empty exactly for an empty grimoire and reads
      "Ready to cast!" exactly when the spell can be cast. */
  lemma CastTextMatchesState(now: int, g: Grimoire)
    ensures GetTimeUntilCast(now, g) == "" <==> !g.isInscribed
    ensures GetTimeUntilCast(now, g) == "Ready to cast!" <==> ReadyToCast(now, g)
  {
    if g.isInscribed && now < g.castTime {
      var b := Bucket(g.castTime - now);
      IntToStringStart(b.count);
      assert GetTimeUntilCast(now, g)[0] == IntToString(b.count)[0];
    }
  }

  /** While the spell is not ready, the countdown shows the time left,
      rounded down to its unit, and never less than one. */
  lemma CountdownShowsTimeLeft(now: int, g: Grimoire)
    requires g.isInscribed && now < g.castTime
    ensures var b := Bucket(g.castTime - now);
      b.count >= 1 && ParseInt(GetTimeUntilCast(now, g), Unspecified) == Val(b.count)
  {
    var b := Bucket(g.castTime - now);
    assert GetTimeUntilCast(now, g) == Countdown(b);
    WordingsShowSameCount(b);
  }

  /** "Not channeled yet" shows exactly for an empty grimoire or one never
      channeled. */
  lemma ChannelTextMatchesState(now: int, g: Grimoire)
    ensures GetTimeSinceChanneled(now, g) == "Not channeled yet" <==> !g.isInscribed || g.lastChanneled == 0
  {
    if g.isInscribed && g.lastChanneled != 0 {
      var b := Bucket(now - g.lastChanneled);
      IntToStringStart(b.count);
      assert GetTimeSinceChanneled(now, g)[0] == IntToString(b.count)[0];
    }
  }

  /** Casting needs a caster: after the placeholder is chosen nothing is
      cast, after a wizard is chosen a ready spell is cast by that wizard. */
  lemma CastUsesChosenWizard(now: int, g: Grimoire, state: CardState, spells: int, wizardId: nat)
    ensures Press(Cast, now, g, SelectWizard(state, Placeholder), spells).None?
    ensures ReadyToCast(now, g) ==>
      Press(Cast, now, g, SelectWizard(state, Chosen(wizardId)), spells) == Some(CastSpell(g.id, wizardId))
  {
  }

  /** Without a choice, an empty grimoire is inscribed with "Fireball". */
  lemma InscribeDefaultsToFireball(now: int, g: Grimoire, spells: int)
    requires !g.isInscribed && spells > 0
    ensures Press(Inscribe, now, g, InitialState, spells) == Some(InscribeSpell(g.id, "Fireball"))
  {
  }

  /** At most one of the three buttons can act at any moment. */
  lemma OneButtonActs(now: int, g: Grimoire, state: CardState, spells: int, b1: Button, b2: Button)
    requires Press(b1, now, g, state, spells).Some? && Press(b2, now, g, state, spells).Some?
    ensures b1 == b2
  {
  }

  /** The potency colour distinguishes exactly the five tiers. */
  lemma PotencyColorByTier(p1: int, p2: int)
    ensures GetPotencyColor(p1) == GetPotencyColor(p2) <==> Traits.TierOf(p1) == Traits.TierOf(p2)
  {
  }

  /** No emoji for an empty grimoire; an inscribed one whose spell type is
      none of the four known names shows the scroll. */
  lemma SpellEmojiByState(g: Grimoire)
    ensures GetSpellEmoji(g) == "" <==> !g.isInscribed
    ensures g.isInscribed && ToLower(g.spellType) !in ["fireball", "frostbolt", "arcane missile", "healing"] ==>
      GetSpellEmoji(g) == "\U{1F4DC}"
  {
  }

  /** The spell emoji depends on the spell type only up to letter case. */
  lemma SpellEmojiIgnoresCase(g: Grimoire, spellType: string)
    requires ToLower(spellType) == ToLower(g.spellType)
    ensures GetSpellEmoji(g.(spellType := spellType)) == GetSpellEmoji(g)
  {
  }

  /** Each emoji literal of the file is exactly the intended emoji encoded
      as UTF-8 and read back as Mac OS Roman. */
  lemma SpellEmojiAsWrittenIsMisread(g: Grimoire)
    ensures GetSpellEmojiAsWritten(g) == TextEncoding.Misread(GetSpellEmoji(g))
  {
    if g.isInscribed {
      match ToLower(g.spellType)
      case "fireball" => FireMisread();
      case "frostbolt" => SnowflakeMisread();
      case "arcane missile" => SparklesMisread();
      case "healing" => GreenHeartMisread();
      case _ => ScrollMisread();
    }
  }

  lemma FireMisread()
    ensures TextEncoding.Misread("\U{1F525}") == "\U{F8FF}\U{FC}\U{EE}\U{2022}"
  {
    TextEncoding.MisreadChar('\U{1F525}');
    assert TextEncoding.Utf8(0x1F525) == [0xF0, 0x9F, 0x94, 0xA5];
    assert TextEncoding.MacRomanBytes([0xF0, 0x9F, 0x94, 0xA5]) == [TextEncoding.MacRoman(0xF0), TextEncoding.MacRoman(0x9F), TextEncoding.MacRoman(0x94), TextEncoding.MacRoman(0xA5)];
    assert TextEncoding.MacRoman(0xF0) == '\U{F8FF}';
    assert TextEncoding.MacRoman(0x9F) == '\U{00FC}';
    assert TextEncoding.MacRoman(0x94) == '\U{00EE}';
    assert TextEncoding.MacRoman(0xA5) == '\U{2022}';
  }

  lemma SnowflakeMisread()
    ensures TextEncoding.Misread("\U{2744}\U{FE0F}") == "\U{201A}\U{F9}\U{D1}\U{D4}\U{220F}\U{E8}"
  {
    TextEncoding.MisreadAppend("\U{2744}", "\U{FE0F}");
    assert "\U{2744}" + "\U{FE0F}" == "\U{2744}\U{FE0F}";
    TextEncoding.MisreadChar('\U{2744}');
    assert TextEncoding.Utf8(0x2744) == [0xE2, 0x9D, 0x84];
    assert TextEncoding.MacRomanBytes([0xE2, 0x9D, 0x84]) == [TextEncoding.MacRoman(0xE2), TextEncoding.MacRoman(0x9D), TextEncoding.MacRoman(0x84)];
    assert TextEncoding.MacRoman(0xE2) == '\U{201A}';
    assert TextEncoding.MacRoman(0x9D) == '\U{00F9}';
    assert TextEncoding.MacRoman(0x84) == '\U{00D1}';
    TextEncoding.MisreadChar('\U{FE0F}');
    assert TextEncoding.Utf8(0xFE0F) == [0xEF, 0xB8, 0x8F];
    assert TextEncoding.MacRomanBytes([0xEF, 0xB8, 0x8F]) == [TextEncoding.MacRoman(0xEF), TextEncoding.MacRoman(0xB8), TextEncoding.MacRoman(0x8F)];
    assert TextEncoding.MacRoman(0xEF) == '\U{00D4}';
    assert TextEncoding.MacRoman(0xB8) == '\U{220F}';
    assert TextEncoding.MacRoman(0x8F) == '\U{00E8}';
  }

  lemma SparklesMisread()
    ensures TextEncoding.Misread("\U{2728}") == "\U{201A}\U{FA}\U{AE}"
  {
    TextEncoding.MisreadChar('\U{2728}');
    assert TextEncoding.Utf8(0x2728) == [0xE2, 0x9C, 0xA8];
    assert TextEncoding.MacRomanBytes([0xE2, 0x9C, 0xA8]) == [TextEncoding.MacRoman(0xE2), TextEncoding.MacRoman(0x9C), TextEncoding.MacRoman(0xA8)];
    assert TextEncoding.MacRoman(0xE2) == '\U{201A}';
    assert TextEncoding.MacRoman(0x9C) == '\U{00FA}';
    assert TextEncoding.MacRoman(0xA8) == '\U{00AE}';
  }

  lemma GreenHeartMisread()
    ensures TextEncoding.Misread("\U{1F49A}") == "\U{F8FF}\U{FC}\U{ED}\U{F6}"
  {
    TextEncoding.MisreadChar('\U{1F49A}');
    assert TextEncoding.Utf8(0x1F49A) == [0xF0, 0x9F, 0x92, 0x9A];
    assert TextEncoding.MacRomanBytes([0xF0, 0x9F, 0x92, 0x9A]) == [TextEncoding.MacRoman(0xF0), TextEncoding.MacRoman(0x9F), TextEncoding.MacRoman(0x92), TextEncoding.MacRoman(0x9A)];
    assert TextEncoding.MacRoman(0xF0) == '\U{F8FF}';
    assert TextEncoding.MacRoman(0x9F) == '\U{00FC}';
    assert TextEncoding.MacRoman(0x92) == '\U{00ED}';
    assert TextEncoding.MacRoman(0x9A) == '\U{00F6}';
  }

  lemma ScrollMisread()
    ensures TextEncoding.Misread("\U{1F4DC}") == "\U{F8FF}\U{FC}\U{EC}\U{FA}"
  {
    TextEncoding.MisreadChar('\U{1F4DC}');
    assert TextEncoding.Utf8(0x1F4DC) == [0xF0, 0x9F, 0x93, 0x9C];
    assert TextEncoding.MacRomanBytes([0xF0, 0x9F, 0x93, 0x9C]) == [TextEncoding.MacRoman(0xF0), TextEncoding.MacRoman(0x9F), TextEncoding.MacRoman(0x93), TextEncoding.MacRoman(0x9C)];
    assert TextEncoding.MacRoman(0xF0) == '\U{F8FF}';
    assert TextEncoding.MacRoman(0x9F) == '\U{00FC}';
    assert TextEncoding.MacRoman(0x93) == '\U{00EC}';
    assert TextEncoding.MacRoman(0x9C) == '\U{00FA}';
  }

  /** In the file as written, a fireball shows four stray characters
      instead of the fire emoji the wizards' Fire element shows. */
  lemma FireballEmojiAsWritten(g: Grimoire)
    requires g.isInscribed && g.spellType == "Fireball"
    ensures GetSpellEmojiAsWritten(g) != Traits.ElementEmoji(Traits.Fire)
    ensures |GetSpellEmojiAsWritten(g)| == 4
  {
    assert ToLower("Fireball") == "fireball";
  }

  /** With the intended emoji, the offered spells get four different
      badges; a fireball shows the Fire element's emoji and an arcane
      missile the Arcane one. */
  lemma SpellEmojiMatchesElements(g: Grimoire)
    requires g.isInscribed
    ensures GetSpellEmoji(g.(spellType := "Fireball")) == Traits.ElementEmoji(Traits.Fire)
    ensures GetSpellEmoji(g.(spellType := "Arcane Missile")) == Traits.ElementEmoji(Traits.Arcane)
    ensures forall i, j :: 0 <= i < j < |SpellTypes| ==>
      GetSpellEmoji(g.(spellType := SpellTypes[i])) != GetSpellEmoji(g.(spellType := SpellTypes[j]))
  {
    assert ToLower("Fireball") == "fireball";
    assert ToLower("Frostbolt") == "frostbolt";
    assert ToLower("Arcane Missile") == "arcane missile";
    assert ToLower("Healing") == "healing";
  }
}
