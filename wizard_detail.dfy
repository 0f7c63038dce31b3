/**
 * The wizard detail page at `/wizard/:id`: the route parameter picks a
 * wizard from the context's list; the page shows its traits with the long
 * time wording and the breeding cooldown, offers the three care buttons,
 * and has a toggled "List for Sale" form.
 */
module WizardDetail {
  import opened JsRuntime
  import opened Wrappers
  import opened Records
  import Traits
  import opened TimeText
  import WizardCard

  /** What the page renders: the not-found notice, or the wizard. */
  datatype Page = NotFound | Found(wizard: Wizard)

  /** The page's element badge, with a background colour added. */
  datatype ElementDetail = ElementDetail(name: string, emoji: string, color: string, bgColor: string)

  /** The breeding line: hours left, rounded up, or ready. */
  datatype Breeding = ReadyIn(hours: int) | ReadyToCombine

  /** The listing form state: whether it is shown and the price text. */
  datatype ListingForm = ListingForm(shown: bool, price: string)

  datatype ListRequest = ListWizard(id: int, price: string)

  /** `parseInt(id || '0')`: a missing or empty parameter reads as "0";
      no radix is given. */
  function WizardId(param: Option<string>): JsInt {
    ParseInt(if param.None? || param.value == "" then "0" else param.value, Unspecified)
  }

  /** Position `i` holds the first wizard with the given id. */
  predicate FirstWithId(wizards: seq<Wizard>, id: JsInt, i: int) {
    0 <= i < |wizards| && Val(wizards[i].id) == id &&
    forall j :: 0 <= j < i ==> Val(wizards[j].id) != id
  }

  /** `wizards.find(w => w.id === wizardId)`: the first wizard whose id
      equals the parsed id. NaN equals no id. */
  function FindWizard(wizards: seq<Wizard>, id: JsInt): (r: Option<Wizard>)
    ensures r.None? <==> forall i :: 0 <= i < |wizards| ==> Val(wizards[i].id) != id
    ensures r.Some? ==> exists i :: FirstWithId(wizards, id, i) && wizards[i] == r.value
    decreases |wizards|
  {
    if |wizards| == 0 then None
    else if Val(wizards[0].id) == id then Some(wizards[0])
    else
      var r := FindWizard(wizards[1..], id);
      assert r.Some? ==> forall i :: FirstWithId(wizards[1..], id, i) ==> FirstWithId(wizards, id, i + 1);
      r
  }

  function View(wizards: seq<Wizard>, param: Option<string>): Page {
    match FindWizard(wizards, WizardId(param))
    case None => NotFound
    case Some(w) => Found(w)
  }

  function GenerateColor(wizard: Wizard): string {
    var hue := RemJs(ParseInt(Substring(wizard.dna, 0, 6), Base16), 360);
    "hsl(" + NumberText(hue) + ", 70%, 80%)"
  }

  function GeneratePattern(wizard: Wizard): Traits.Pattern {
    match RemJs(ParseInt(Substring(wizard.dna, 6, 10), Base16), 5)
    case Val(0) => Traits.Transparent
    case Val(1) => Traits.DiagonalBands
    case Val(2) => Traits.RadialRing
    case Val(3) => Traits.HalfSplit
    case Val(4) => Traits.RepeatingStripes
    case _ => Traits.NoPattern
  }

  function GetWizardElement(wizard: Wizard): ElementDetail {
    match RemJs(ParseInt(Substring(wizard.dna, 10, 12), Base16), 5)
    case Val(0) => ElementDetail("Fire", "\U{1F525}", "text-red-500", "bg-red-100")
    case Val(1) => ElementDetail("Water", "\U{1F4A7}", "text-blue-500", "bg-blue-100")
    case Val(2) => ElementDetail("Earth", "\U{1F331}", "text-green-500", "bg-green-100")
    case Val(3) => ElementDetail("Air", "\U{1F4A8}", "text-gray-400", "bg-gray-100")
    case Val(4) => ElementDetail("Arcane", "\U{2728}", "text-purple-500", "bg-purple-100")
    case _ => ElementDetail("Unknown", "\U{2753}", "text-gray-500", "bg-gray-100")
  }

  /** `getTimeSince`, long wording. */
  function GetTimeSince(now: int, timestamp: int): string {
    LongAgo(Bucket(now - timestamp))
  }

  predicate NeedsTraining(now: int, wizard: Wizard) {
    now - wizard.lastTrained > 4 * 3600
  }

  predicate NeedsMeditation(now: int, wizard: Wizard) {
    now - wizard.lastMeditated > 12 * 3600
  }

  predicate CanHarvestMana(now: int, wizard: Wizard) {
    now - wizard.lastHarvested > 3 * 86400
  }

  function GetRarityLabel(wizard: Wizard): string {
    if wizard.rarity >= 90 then "Legendary"
    else if wizard.rarity >= 70 then "Epic"
    else if wizard.rarity >= 50 then "Rare"
    else if wizard.rarity >= 30 then "Uncommon"
    else "Common"
  }

  /** The breeding line: while the cooldown lies in the future, the hours
      left rounded up, which is at least one. */
  function BreedingStatus(now: int, wizard: Wizard): (b: Breeding)
    ensures b.ReadyIn? <==> wizard.breedingCooldown > now
    ensures b.ReadyIn? ==> (b.hours >= 1 &&
      (b.hours - 1) * 3600 < wizard.breedingCooldown - now <= b.hours * 3600)
  {
    if wizard.breedingCooldown > now then ReadyIn(CeilDiv(wizard.breedingCooldown - now, 3600))
    else ReadyToCombine
  }

  function BreedingText(b: Breeding): string {
    match b
    case ReadyIn(h) => "Ready in " + IntToString(h) + " hours"
    case ReadyToCombine => "Ready to combine lineages"
  }

  /** A care button on the page: the same gates as on the card, and the
      call carries the route's id, which is the shown wizard's id. */
  function Click(button: WizardCard.Button, now: int, wizard: Wizard): (r: Option<WizardCard.Request>)
    ensures r.Some? <==> match button
      case Train => NeedsTraining(now, wizard)
      case Meditate => NeedsMeditation(now, wizard)
      case Harvest => CanHarvestMana(now, wizard)
    ensures r.Some? ==> r.value.id == wizard.id
  {
    match button
    case Train => if NeedsTraining(now, wizard) then Some(WizardCard.TrainWizard(wizard.id)) else None
    case Meditate => if NeedsMeditation(now, wizard) then Some(WizardCard.MeditateWizard(wizard.id)) else None
    case Harvest => if CanHarvestMana(now, wizard) then Some(WizardCard.HarvestMana(wizard.id)) else None
  }

  /** The form as the effect leaves it whenever the route id changes. */
  const ClosedForm: ListingForm := ListingForm(false, "")

  /** The "List for Sale" / "Cancel" button. */
  function ToggleForm(form: ListingForm): (r: ListingForm)
    ensures r.shown != form.shown && r.price == form.price
  {
    form.(shown := !form.shown)
  }

  function SetPrice(form: ListingForm, price: string): (r: ListingForm)
    ensures r.shown == form.shown && r.price == price
  {
    form.(price := price)
  }

  /** `handleListingSubmit`: lists the wizard when the price text is
      non-empty and reads as a positive number; that reading
      (`parseFloat(price) > 0`) is passed in as `pricePositive`. */
  function ListingSubmit(form: ListingForm, wizardId: JsInt, pricePositive: bool): (r: Option<ListRequest>)
    requires wizardId.Val?
    ensures r.Some? <==> form.price != "" && pricePositive
    ensures r.Some? ==> r.value == ListWizard(wizardId.v, form.price)
  {
    if form.price != "" && pricePositive then Some(ListWizard(wizardId.v, form.price)) else None
  }

  // ---------------------------------------------------------------------
  // Properties

  /** Without a parameter, or with an empty one, the page looks for the
      wizard with id 0. */
  lemma MissingIdIsZero()
    ensures WizardId(None) == Val(0) && WizardId(Some("")) == Val(0)
  {
    ParseIntToString(0, []);
    assert IntToString(0) + [] == "0";
  }

  /** The not-found notice shows exactly when no wizard carries the parsed
      id; otherwise the page shows the first wizard that does, and that
      wizard's id is the id the buttons send. */
  lemma ViewFindsRouteId(wizards: seq<Wizard>, param: Option<string>)
    ensures View(wizards, param).NotFound? <==> forall i :: 0 <= i < |wizards| ==> Val(wizards[i].id) != WizardId(param)
    ensures View(wizards, param).Found? ==> (View(wizards, param).wizard in wizards &&
      WizardId(param) == Val(View(wizards, param).wizard.id))
  {
  }

  /** The card's "Details" link, `/wizard/<id>`, opens the page of a wizard
      with that id whenever the list holds one, and with unique ids it is
      that very wizard. */
  lemma DetailsLinkOpensWizard(wizards: seq<Wizard>, k: nat)
    requires 0 <= k < |wizards|
    requires forall i, j :: 0 <= i < j < |wizards| ==> wizards[i].id != wizards[j].id
    ensures WizardCard.DetailsPath(wizards[k].id) == "/wizard/" + ToDecimal(wizards[k].id)
    ensures View(wizards, Some(ToDecimal(wizards[k].id))) == Found(wizards[k])
  {
    var id := wizards[k].id;
    ParseIntToString(id, []);
    assert IntToString(id) + [] == ToDecimal(id);
    assert WizardId(Some(ToDecimal(id))) == Val(id);
    var r := FindWizard(wizards, Val(id));
    assert r.Some?;
    var i :| FirstWithId(wizards, Val(id), i) && wizards[i] == r.value;
    assert i == k;
  }

  /** The page's copies of the card's helpers agree with the card. */
  lemma ColorMatchesCard(wizard: Wizard)
    ensures GenerateColor(wizard) == WizardCard.GenerateColor(wizard.dna)
    ensures GetRarityLabel(wizard) == WizardCard.GetRarityLabel(wizard.rarity)
  {
  }

  lemma PatternMatchesCard(wizard: Wizard)
    ensures GeneratePattern(wizard) == WizardCard.GeneratePattern(wizard.dna)
  {
    var v := Traits.PatternValue(wizard.dna);
    assert RemJs(ParseInt(Substring(wizard.dna, 6, 10), Base16), 5) == v;
    WizardCard.PatternMatchesShared(wizard.dna);
  }

  lemma ElementMatchesCard(wizard: Wizard)
    ensures var e := GetWizardElement(wizard);
      WizardCard.GetWizardElement(wizard.dna) == WizardCard.ElementStyle(e.name, e.emoji, e.color)
    ensures GetWizardElement(wizard).bgColor == "bg-gray-100" <==>
      Traits.ElementOfDna(wizard.dna) in {Traits.Air, Traits.Unknown}
  {
    var v := Traits.ElementValue(wizard.dna);
    assert RemJs(ParseInt(Substring(wizard.dna, 10, 12), Base16), 5) == v;
  }

  lemma GatesMatchCard(button: WizardCard.Button, now: int, wizard: Wizard)
    ensures Click(button, now, wizard) ==
      WizardCard.Click(button, wizard.id, now, wizard.lastTrained, wizard.lastMeditated, wizard.lastHarvested)
  {
  }

  /** The long text shows the same figure as the card's short one. */
  lemma TimeSinceMatchesCard(now: int, timestamp: int)
    ensures ParseInt(GetTimeSince(now, timestamp), Unspecified) ==
      ParseInt(WizardCard.GetTimeSince(now, timestamp), Unspecified) == Val(Bucket(now - timestamp).count)
  {
    WordingsShowSameCount(Bucket(now - timestamp));
  }

  /** The hours in the breeding line read back out of the text. */
  lemma BreedingTextShowsHours(now: int, wizard: Wizard)
    requires wizard.breedingCooldown > now
    ensures var t := BreedingText(BreedingStatus(now, wizard));
      t[..9] == "Ready in " && ParseInt(t[9..], Unspecified) == Val(BreedingStatus(now, wizard).hours)
  {
    var h := BreedingStatus(now, wizard).hours;
    var t := BreedingText(BreedingStatus(now, wizard));
    assert t[9..] == IntToString(h) + " hours";
    ParseIntToString(h, " hours");
  }

  /** Right after the route changes the form is closed with no price, so
      submitting lists nothing; showing and hiding it keeps its price. */
  lemma ListingFormResets(wizardId: JsInt, pricePositive: bool, form: ListingForm)
    requires wizardId.Val?
    ensures ListingSubmit(ClosedForm, wizardId, pricePositive).None?
    ensures ListingSubmit(ToggleForm(ClosedForm), wizardId, pricePositive).None?
    ensures ToggleForm(ToggleForm(form)) == form
  {
  }
}
