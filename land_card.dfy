/**
 * The land card of the farm page. An empty plot offers a crop choice and
 * a "Plant" button; a planted one shows its crop, the time left until
 * harvest and when it was last watered, and then either the harvester
 * choice with a "Harvest Crops" button (once the harvest time has come)
 * or a "Water Crops" button. `now` (Unix seconds) and the player's seed
 * count are parameters.
 */
module LandCard {
  import opened JsRuntime
  import opened Wrappers
  import opened Records
  import Traits
  import opened TimeText

  /** The calls the card makes into the alpaca context. */
  datatype Request =
    | PlantCrops(plotId: nat, cropType: string)
    | WaterCrops(plotId: nat)
    | HarvestCrops(plotId: nat, alpacaId: nat)

  /** The lower half of the card. */
  datatype Panel = PlantingPanel | HarvestingPanel | WateringPanel

  datatype Button = Plant | Harvest | Water

  /** The card's own state: the chosen crop type and harvester. */
  datatype CardState = CardState(selectedCrop: string, selectedAlpaca: Option<nat>)

  const InitialState: CardState := CardState("Wheat", None)

  /** The crop types the planting choice offers. */
  const CropTypes: seq<string> := ["Wheat", "Corn", "Barley", "Oats"]

  const WateringCooldown: int := 4 * 3600

  /** `getTimeUntilHarvest` */
  function GetTimeUntilHarvest(now: int, plot: LandPlot): string {
    if !plot.isPlanted then ""
    else if now >= plot.harvestTime then "Ready to harvest!"
    else Countdown(Bucket(plot.harvestTime - now))
  }

  /** `getTimeSinceWatered` */
  function GetTimeSinceWatered(now: int, plot: LandPlot): string {
    if !plot.isPlanted || plot.lastWatered == 0 then "Not watered yet"
    else LongAgo(Bucket(now - plot.lastWatered))
  }

  predicate NeedsWatering(now: int, plot: LandPlot) {
    plot.isPlanted && now - plot.lastWatered > WateringCooldown
  }

  predicate ReadyToHarvest(now: int, plot: LandPlot) {
    plot.isPlanted && now >= plot.harvestTime
  }

  function PanelOf(now: int, plot: LandPlot): (p: Panel)
    ensures p == PlantingPanel <==> !plot.isPlanted
    ensures p == HarvestingPanel <==> ReadyToHarvest(now, plot)
    ensures p == WateringPanel <==> plot.isPlanted && now < plot.harvestTime
  {
    if !plot.isPlanted then PlantingPanel
    else if ReadyToHarvest(now, plot) then HarvestingPanel
    else WateringPanel
  }

  function SelectCrop(state: CardState, crop: string): (r: CardState)
    ensures r.selectedCrop == crop && r.selectedAlpaca == state.selectedAlpaca
  {
    state.(selectedCrop := crop)
  }

  /** The harvester choice: `e.target.value ? Number(e.target.value) : ''`,
      so the placeholder clears the selection. */
  function SelectAlpaca(state: CardState, choice: Choice): (r: CardState)
    ensures r.selectedCrop == state.selectedCrop
    ensures r.selectedAlpaca.None? <==> choice.Placeholder?
    ensures choice.Chosen? ==> r.selectedAlpaca == Some(choice.id)
  {
    state.(selectedAlpaca := if choice.Placeholder? then None else Some(choice.id))
  }

  /** `handlePlant` */
  function HandlePlant(plot: LandPlot, state: CardState, seeds: int): Option<Request> {
    if seeds > 0 then Some(PlantCrops(plot.id, state.selectedCrop)) else None
  }

  /** `handleHarvest` */
  function HandleHarvest(plot: LandPlot, state: CardState): Option<Request> {
    if state.selectedAlpaca.Some? then Some(HarvestCrops(plot.id, state.selectedAlpaca.value)) else None
  }

  /** The `disabled` attribute of each button. */
  predicate Disabled(button: Button, now: int, plot: LandPlot, state: CardState, seeds: int) {
    match button
    case Plant => seeds <= 0
    case Harvest => state.selectedAlpaca.None?
    case Water => !NeedsWatering(now, plot)
  }

  predicate Shown(button: Button, panel: Panel) {
    match button
    case Plant => panel == PlantingPanel
    case Harvest => panel == HarvestingPanel
    case Water => panel == WateringPanel
  }

  /** A click: only a shown, enabled button does anything, and then it
      runs its handler. */
  function Press(button: Button, now: int, plot: LandPlot, state: CardState, seeds: int): (r: Option<Request>)
    ensures r.Some? <==> match button
      case Plant => !plot.isPlanted && seeds > 0
      case Harvest => ReadyToHarvest(now, plot) && state.selectedAlpaca.Some?
      case Water => plot.isPlanted && now < plot.harvestTime && now - plot.lastWatered > WateringCooldown
    ensures r.Some? ==> r.value.plotId == plot.id
    ensures r.Some? && button == Plant ==> r.value == PlantCrops(plot.id, state.selectedCrop)
    ensures r.Some? && button == Harvest ==> r.value == HarvestCrops(plot.id, state.selectedAlpaca.value)
    ensures r.Some? && button == Water ==> r.value == WaterCrops(plot.id)
  {
    if !Shown(button, PanelOf(now, plot)) || Disabled(button, now, plot, state, seeds) then None
    else match button
      case Plant => HandlePlant(plot, state, seeds)
      case Harvest => HandleHarvest(plot, state)
      case Water => Some(WaterCrops(plot.id))
  }

  function GetFertilityColor(fertility: int): string {
    if fertility >= 80 then "text-green-600"
    else if fertility >= 60 then "text-lime-600"
    else if fertility >= 40 then "text-yellow-600"
    else if fertility >= 20 then "text-orange-600"
    else "text-red-600"
  }

  // ---------------------------------------------------------------------
  // Properties

  /** The harvest line is empty exactly for an empty plot and reads
      "Ready to harvest!" exactly when the crop can be harvested. */
  lemma HarvestTextMatchesState(now: int, plot: LandPlot)
    ensures GetTimeUntilHarvest(now, plot) == "" <==> !plot.isPlanted
    ensures GetTimeUntilHarvest(now, plot) == "Ready to harvest!" <==> ReadyToHarvest(now, plot)
  {
    if plot.isPlanted && now < plot.harvestTime {
      var b := Bucket(plot.harvestTime - now);
      IntToStringStart(b.count);
      assert GetTimeUntilHarvest(now, plot)[0] == IntToString(b.count)[0];
    }
  }

  /** While the crop is not ready, the countdown shows the time left,
      rounded down to its unit, and never less than one. */
  lemma CountdownShowsTimeLeft(now: int, plot: LandPlot)
    requires plot.isPlanted && now < plot.harvestTime
    ensures var b := Bucket(plot.harvestTime - now);
      b.count >= 1 && ParseInt(GetTimeUntilHarvest(now, plot), Unspecified) == Val(b.count)
  {
    var b := Bucket(plot.harvestTime - now);
    assert GetTimeUntilHarvest(now, plot) == Countdown(b);
    WordingsShowSameCount(b);
  }

  /** "Not watered yet" shows exactly for an empty plot or one never
      watered. */
  lemma WaterTextMatchesState(now: int, plot: LandPlot)
    ensures GetTimeSinceWatered(now, plot) == "Not watered yet" <==> !plot.isPlanted || plot.lastWatered == 0
  {
    if plot.isPlanted && plot.lastWatered != 0 {
      var b := Bucket(now - plot.lastWatered);
      IntToStringStart(b.count);
      assert GetTimeSinceWatered(now, plot)[0] == IntToString(b.count)[0];
    }
  }

  /** Harvesting needs a harvester: after the placeholder is chosen nothing
      is harvested, after an alpaca is chosen a ripe crop is harvested by it. */
  lemma HarvestUsesChosenAlpaca(now: int, plot: LandPlot, state: CardState, seeds: int, alpacaId: nat)
    ensures Press(Harvest, now, plot, SelectAlpaca(state, Placeholder), seeds).None?
    ensures ReadyToHarvest(now, plot) ==>
      Press(Harvest, now, plot, SelectAlpaca(state, Chosen(alpacaId)), seeds) == Some(HarvestCrops(plot.id, alpacaId))
  {
  }

  /** Without a choice, an empty plot is planted with "Wheat". */
  lemma PlantDefaultsToWheat(now: int, plot: LandPlot, seeds: int)
    requires !plot.isPlanted && seeds > 0
    ensures Press(Plant, now, plot, InitialState, seeds) == Some(PlantCrops(plot.id, "Wheat"))
  {
  }

  /** At most one of the three buttons can act at any moment. */
  lemma OneButtonActs(now: int, plot: LandPlot, state: CardState, seeds: int, b1: Button, b2: Button)
    requires Press(b1, now, plot, state, seeds).Some? && Press(b2, now, plot, state, seeds).Some?
    ensures b1 == b2
  {
  }

  /** The fertility colour distinguishes exactly the five tiers. */
  lemma FertilityColorByTier(f1: int, f2: int)
    ensures GetFertilityColor(f1) == GetFertilityColor(f2) <==> Traits.TierOf(f1) == Traits.TierOf(f2)
  {
  }

  /** `getCropImage`: by crop type, ignoring case; unlike the grimoire's
      badge it does not look at whether anything is planted. */
  function GetCropImage(plot: LandPlot): string {
    match ToLower(plot.cropType)
    case "wheat" => "\U{1F33E}"
    case "corn" => "\U{1F33D}"
    case "barley" => "\U{1F33F}"
    case "oats" => "\U{1F331}"
    case _ => "\U{1F33E}"
  }

  /** The offered crops get four different pictures, whatever the letter
      case; anything else shows the wheat picture. */
  lemma CropImageByType(plot: LandPlot, cropType: string)
    ensures forall i, j :: 0 <= i < j < |CropTypes| ==>
      GetCropImage(plot.(cropType := CropTypes[i])) != GetCropImage(plot.(cropType := CropTypes[j]))
    ensures ToLower(cropType) == ToLower(plot.cropType) ==> GetCropImage(plot.(cropType := cropType)) == GetCropImage(plot)
    ensures !(ToLower(plot.cropType) in ["corn", "barley", "oats"]) ==> GetCropImage(plot) == GetCropImage(plot.(cropType := "Wheat"))
    ensures GetCropImage(plot.(isPlanted := !plot.isPlanted)) == GetCropImage(plot)
  {
    assert ToLower("Wheat") == "wheat";
    assert ToLower("Corn") == "corn";
    assert ToLower("Barley") == "barley";
    assert ToLower("Oats") == "oats";
  }
}
