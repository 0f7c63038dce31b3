/**
 * The records the two context providers hand to the cards and pages. They
 * are built from remote contract results, which are not part of this
 * model; only their shape is.
 */
module Records {

  /** A wizard as loaded by the wizard context. Timestamps are Unix seconds. */
  datatype Wizard = Wizard(
    id: nat, name: string, dna: string, level: int, rarity: int,
    lastTrained: int, lastMeditated: int, breedingCooldown: int,
    mana: int, lastHarvested: int, wisdom: int, energy: int, spellPower: int)

  /** A grimoire: the wizard economy's timed structure. */
  datatype Grimoire = Grimoire(
    id: nat, name: string, potency: int, size: int, isInscribed: bool,
    inscribedTime: int, castTime: int, spellType: string, lastChanneled: int)

  datatype WizardResources = WizardResources(mana: int, spells: int, scrolls: int)

  /** An alpaca as loaded by the alpaca context. */
  datatype Alpaca = Alpaca(
    id: nat, name: string, dna: string, level: int, rarity: int,
    lastFed: int, lastGroomed: int, breedingCooldown: int,
    wool: int, lastSheared: int, happiness: int, energy: int, farmingSkill: int)

  /** A land plot: the alpaca economy's timed structure. */
  datatype LandPlot = LandPlot(
    id: nat, name: string, fertility: int, size: int, isPlanted: bool,
    plantedTime: int, harvestTime: int, cropType: string, lastWatered: int)

  datatype FarmResources = FarmResources(wool: int, seeds: int, crops: int)

  /** An active marketplace listing; the price is the ether amount as text. */
  datatype Listing = Listing(tokenId: nat, seller: string, price: string, active: bool)
}
