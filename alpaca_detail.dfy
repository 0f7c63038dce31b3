/**
 * The alpaca detail page at `/alpaca/:id`: the route parameter picks an
 * alpaca from the context's list; the page shows its traits with the long
 * time wording and the breeding cooldown, offers the three care buttons,
 * and has a toggled "List for Sale" form.
 */
module AlpacaDetail {
  import opened JsRuntime
  import opened Wrappers
  import opened Records
  import Traits
  import opened TimeText
  import AlpacaCard

  /** What the page renders: the not-found notice, or the alpaca. */
  datatype Page = NotFound | Found(alpaca: Alpaca)

  /** The breeding line: hours left, rounded up, or ready. */
  datatype Breeding = ReadyIn(hours: int) | ReadyToBreed

  /** The listing form state: whether it is shown and the price text. */
  datatype ListingForm = ListingForm(shown: bool, price: string)

  datatype ListRequest = ListAlpaca(id: int, price: string)

  /** `parseInt(id || '0')`: a missing or empty parameter reads as "0";
      no radix is given. */
  function AlpacaId(param: Option<string>): JsInt {
    ParseInt(if param.None? || param.value == "" then "0" else param.value, Unspecified)
  }

  /** Position `i` holds the first alpaca with the given id. */
  predicate FirstWithId(alpacas: seq<Alpaca>, id: JsInt, i: int) {
    0 <= i < |alpacas| && Val(alpacas[i].id) == id &&
    forall j :: 0 <= j < i ==> Val(alpacas[j].id) != id
  }

  /** `alpacas.find(a => a.id === alpacaId)`: the first alpaca whose id
      equals the parsed id. NaN equals no id. */
  function FindAlpaca(alpacas: seq<Alpaca>, id: JsInt): (r: Option<Alpaca>)
    ensures r.None? <==> forall i :: 0 <= i < |alpacas| ==> Val(alpacas[i].id) != id
    ensures r.Some? ==> exists i :: FirstWithId(alpacas, id, i) && alpacas[i] == r.value
    decreases |alpacas|
  {
    if |alpacas| == 0 then None
    else if Val(alpacas[0].id) == id then Some(alpacas[0])
    else
      var r := FindAlpaca(alpacas[1..], id);
      assert r.Some? ==> forall i :: FirstWithId(alpacas[1..], id, i) ==> FirstWithId(alpacas, id, i + 1);
      r
  }

  function View(alpacas: seq<Alpaca>, param: Option<string>): Page {
    match FindAlpaca(alpacas, AlpacaId(param))
    case None => NotFound
    case Some(w) => Found(w)
  }

  function GenerateColor(alpaca: Alpaca): string {
    var hue := RemJs(ParseInt(Substring(alpaca.dna, 0, 6), Base16), 360);
    "hsl(" + NumberText(hue) + ", 70%, 80%)"
  }

  function GeneratePattern(alpaca: Alpaca): Traits.Pattern {
    match RemJs(ParseInt(Substring(alpaca.dna, 6, 10), Base16), 5)
    case Val(0) => Traits.Transparent
    case Val(1) => Traits.DiagonalBands
    case Val(2) => Traits.RadialRing
    case Val(3) => Traits.HalfSplit
    case Val(4) => Traits.RepeatingStripes
    case _ => Traits.NoPattern
  }

  /** `getTimeSince`, long wording. */
  function GetTimeSince(now: int, timestamp: int): string {
    LongAgo(Bucket(now - timestamp))
  }

  predicate NeedsFeeding(now: int, alpaca: Alpaca) {
    now - alpaca.lastFed > 4 * 3600
  }

  predicate NeedsGrooming(now: int, alpaca: Alpaca) {
    now - alpaca.lastGroomed > 12 * 3600
  }

  predicate CanBeSheared(now: int, alpaca: Alpaca) {
    now - alpaca.lastSheared > 3 * 86400
  }

  function GetRarityLabel(alpaca: Alpaca): string {
    if alpaca.rarity >= 90 then "Legendary"
    else if alpaca.rarity >= 70 then "Epic"
    else if alpaca.rarity >= 50 then "Rare"
    else if alpaca.rarity >= 30 then "Uncommon"
    else "Common"
  }

  /** The breeding line: while the cooldown lies in the future, the hours
      left rounded up, which is at least one. */
  function BreedingStatus(now: int, alpaca: Alpaca): (b: Breeding)
    ensures b.ReadyIn? <==> alpaca.breedingCooldown > now
    ensures b.ReadyIn? ==> (b.hours >= 1 &&
      (b.hours - 1) * 3600 < alpaca.breedingCooldown - now <= b.hours * 3600)
  {
    if alpaca.breedingCooldown > now then ReadyIn(CeilDiv(alpaca.breedingCooldown - now, 3600))
    else ReadyToBreed
  }

  function BreedingText(b: Breeding): string {
    match b
    case ReadyIn(h) => "Ready in " + IntToString(h) + " hours"
    case ReadyToBreed => "Ready to breed"
  }

  /** A care button on the page: the same gates as on the card, and the
      call carries the route's id, which is the shown alpaca's id. */
  function Click(button: AlpacaCard.Button, now: int, alpaca: Alpaca): (r: Option<AlpacaCard.Request>)
    ensures r.Some? <==> match button
      case Feed => NeedsFeeding(now, alpaca)
      case Groom => NeedsGrooming(now, alpaca)
      case Shear => CanBeSheared(now, alpaca)
    ensures r.Some? ==> r.value.id == alpaca.id
  {
    match button
    case Feed => if NeedsFeeding(now, alpaca) then Some(AlpacaCard.FeedAlpaca(alpaca.id)) else None
    case Groom => if NeedsGrooming(now, alpaca) then Some(AlpacaCard.GroomAlpaca(alpaca.id)) else None
    case Shear => if CanBeSheared(now, alpaca) then Some(AlpacaCard.ShearAlpaca(alpaca.id)) else None
  }

  /** The form as the effect leaves it whenever the route id changes. */
  const ClosedForm: ListingForm := ListingForm(false, "")

  /** The "List for Sale" / "Cancel" button. */
  function ToggleForm(form: ListingForm): (r: ListingForm)
    ensures r.shown != form.shown && r.price == form.price
  {
    form.(shown := !form.shown)
  }

  function SetPrice(form: ListingForm, price: string): (r: ListingForm)
    ensures r.shown == form.shown && r.price == price
  {
    form.(price := price)
  }

  /** `handleListingSubmit`: lists the alpaca when the price text is
      non-empty and reads as a positive number; that reading
      (`parseFloat(price) > 0`) is passed in as `pricePositive`. */
  function ListingSubmit(form: ListingForm, alpacaId: JsInt, pricePositive: bool): (r: Option<ListRequest>)
    requires alpacaId.Val?
    ensures r.Some? <==> form.price != "" && pricePositive
    ensures r.Some? ==> r.value == ListAlpaca(alpacaId.v, form.price)
  {
    if form.price != "" && pricePositive then Some(ListAlpaca(alpacaId.v, form.price)) else None
  }

  // ---------------------------------------------------------------------
  // Properties

  /** Without a parameter, or with an empty one, the page looks for the
      alpaca with id 0. */
  lemma MissingIdIsZero()
    ensures AlpacaId(None) == Val(0) && AlpacaId(Some("")) == Val(0)
  {
    ParseIntToString(0, []);
    assert IntToString(0) + [] == "0";
  }

  /** The not-found notice shows exactly when no alpaca carries the parsed
      id; otherwise the page shows the first alpaca that does, and that
      alpaca's id is the id the buttons send. */
  lemma ViewFindsRouteId(alpacas: seq<Alpaca>, param: Option<string>)
    ensures View(alpacas, param).NotFound? <==> forall i :: 0 <= i < |alpacas| ==> Val(alpacas[i].id) != AlpacaId(param)
    ensures View(alpacas, param).Found? ==> (View(alpacas, param).alpaca in alpacas &&
      AlpacaId(param) == Val(View(alpacas, param).alpaca.id))
  {
  }

  /** The card's "Details" link, `/alpaca/<id>`, opens the page of an alpaca
      with that id whenever the list holds one, and with unique ids it is
      that very alpaca. */
  lemma DetailsLinkOpensAlpaca(alpacas: seq<Alpaca>, k: nat)
    requires 0 <= k < |alpacas|
    requires forall i, j :: 0 <= i < j < |alpacas| ==> alpacas[i].id != alpacas[j].id
    ensures AlpacaCard.DetailsPath(alpacas[k].id) == "/alpaca/" + ToDecimal(alpacas[k].id)
    ensures View(alpacas, Some(ToDecimal(alpacas[k].id))) == Found(alpacas[k])
  {
    var id := alpacas[k].id;
    ParseIntToString(id, []);
    assert IntToString(id) + [] == ToDecimal(id);
    assert AlpacaId(Some(ToDecimal(id))) == Val(id);
    var r := FindAlpaca(alpacas, Val(id));
    assert r.Some?;
    var i :| FirstWithId(alpacas, Val(id), i) && alpacas[i] == r.value;
    assert i == k;
  }

  /** The page's copies of the card's helpers agree with the card. */
  lemma ColorMatchesCard(alpaca: Alpaca)
    ensures GenerateColor(alpaca) == AlpacaCard.GenerateColor(alpaca.dna)
    ensures GetRarityLabel(alpaca) == AlpacaCard.GetRarityLabel(alpaca.rarity)
  {
  }

  lemma PatternMatchesCard(alpaca: Alpaca)
    ensures GeneratePattern(alpaca) == AlpacaCard.GeneratePattern(alpaca.dna)
  {
    var v := Traits.PatternValue(alpaca.dna);
    assert RemJs(ParseInt(Substring(alpaca.dna, 6, 10), Base16), 5) == v;
    AlpacaCard.PatternMatchesShared(alpaca.dna);
  }

  lemma GatesMatchCard(button: AlpacaCard.Button, now: int, alpaca: Alpaca)
    ensures Click(button, now, alpaca) ==
      AlpacaCard.Click(button, alpaca.id, now, alpaca.lastFed, alpaca.lastGroomed, alpaca.lastSheared)
  {
  }

  /** The long text shows the same figure as the card's short one. */
  lemma TimeSinceMatchesCard(now: int, timestamp: int)
    ensures ParseInt(GetTimeSince(now, timestamp), Unspecified) ==
      ParseInt(AlpacaCard.GetTimeSince(now, timestamp), Unspecified) == Val(Bucket(now - timestamp).count)
  {
    WordingsShowSameCount(Bucket(now - timestamp));
  }

  /** The hours in the breeding line read back out of the text. */
  lemma BreedingTextShowsHours(now: int, alpaca: Alpaca)
    requires alpaca.breedingCooldown > now
    ensures var t := BreedingText(BreedingStatus(now, alpaca));
      t[..9] == "Ready in " && ParseInt(t[9..], Unspecified) == Val(BreedingStatus(now, alpaca).hours)
  {
    var h := BreedingStatus(now, alpaca).hours;
    var t := BreedingText(BreedingStatus(now, alpaca));
    assert t[9..] == IntToString(h) + " hours";
    ParseIntToString(h, " hours");
  }

  /** Right after the route changes the form is closed with no price, so
      submitting lists nothing; showing and hiding it keeps its price. */
  lemma ListingFormResets(alpacaId: JsInt, pricePositive: bool, form: ListingForm)
    requires alpacaId.Val?
    ensures ListingSubmit(ClosedForm, alpacaId, pricePositive).None?
    ensures ListingSubmit(ToggleForm(ClosedForm), alpacaId, pricePositive).None?
    ensures ToggleForm(ToggleForm(form)) == form
  {
  }
}
