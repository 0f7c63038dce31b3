/**
 * A marketplace listing card: the same DNA-derived look as the wizard
 * card plus a "Magical Affinity", the price, an abbreviated seller
 * address, and one button: "Cancel Listing" for the connected account
 * that listed the wizard, "Acquire Wizard" for everyone else.
 */
module MarketplaceCard {
  import opened JsRuntime
  import opened Wrappers
  import Traits
  import WizardCard

  /** The calls the card makes into the wizard context. */
  datatype Request = CancelListing(tokenId: nat) | BuyWizard(tokenId: nat, price: string)

  function GenerateColor(dna: string): string {
    var hue := RemJs(ParseInt(Substring(dna, 0, 6), Base16), 360);
    "hsl(" + NumberText(hue) + ", 70%, 80%)"
  }

  function GeneratePattern(dna: string): Traits.Pattern {
    match RemJs(ParseInt(Substring(dna, 6, 10), Base16), 5)
    case Val(0) => Traits.Transparent
    case Val(1) => Traits.DiagonalBands
    case Val(2) => Traits.RadialRing
    case Val(3) => Traits.HalfSplit
    case Val(4) => Traits.RepeatingStripes
    case _ => Traits.NoPattern
  }

  function GetWizardElement(dna: string): WizardCard.ElementStyle {
    match RemJs(ParseInt(Substring(dna, 10, 12), Base16), 5)
    case Val(0) => WizardCard.ElementStyle("Fire", "\U{1F525}", "text-red-500")
    case Val(1) => WizardCard.ElementStyle("Water", "\U{1F4A7}", "text-blue-500")
    case Val(2) => WizardCard.ElementStyle("Earth", "\U{1F331}", "text-green-500")
    case Val(3) => WizardCard.ElementStyle("Air", "\U{1F4A8}", "text-gray-400")
    case Val(4) => WizardCard.ElementStyle("Arcane", "\U{2728}", "text-purple-500")
    case _ => WizardCard.ElementStyle("Unknown", "\U{2753}", "text-gray-500")
  }

  function GetRarityColor(rarity: int): string {
    if rarity >= 90 then "text-purple-600"
    else if rarity >= 70 then "text-blue-600"
    else if rarity >= 50 then "text-green-600"
    else if rarity >= 30 then "text-yellow-600"
    else "text-gray-600"
  }

  function GetRarityLabel(rarity: int): string {
    if rarity >= 90 then "Legendary"
    else if rarity >= 70 then "Epic"
    else if rarity >= 50 then "Rare"
    else if rarity >= 30 then "Uncommon"
    else "Common"
  }

  /** The "Magical Affinity" figure: characters 12..14 as hexadecimal,
      modulo 100, written as a number (NaN included). */
  function AffinityText(dna: string): string {
    NumberText(RemJs(ParseInt(Substring(dna, 12, 14), Base16), 100))
  }

  /** `account && account.toLowerCase() === seller.toLowerCase()`: no
      account, or the empty one, owns nothing. */
  predicate IsOwner(account: Option<string>, seller: string) {
    account.Some? && account.value != "" && ToLower(account.value) == ToLower(seller)
  }

  /** `${seller.substring(0, 6)}...${seller.substring(seller.length - 4)}` */
  function SellerAbbrev(seller: string): string {
    Substring(seller, 0, 6) + "..." + SubstringFrom(seller, |seller| - 4)
  }

  /** The card's one button. */
  function Click(account: Option<string>, tokenId: nat, seller: string, price: string): (r: Request)
    ensures r.CancelListing? <==> IsOwner(account, seller)
    ensures r.tokenId == tokenId
    ensures r.BuyWizard? ==> r.price == price
  {
    if IsOwner(account, seller) then CancelListing(tokenId) else BuyWizard(tokenId, price)
  }

  // ---------------------------------------------------------------------
  // Properties

  /** The card's copies of the trait expressions agree with the wizard
      card's and the shared definitions; the affinity is the shared one. */
  lemma ColorMatchesWizardCard(dna: string, rarity: int)
    ensures GenerateColor(dna) == WizardCard.GenerateColor(dna)
    ensures GetRarityColor(rarity) == WizardCard.GetRarityColor(rarity)
    ensures GetRarityLabel(rarity) == WizardCard.GetRarityLabel(rarity)
    ensures AffinityText(dna) == NumberText(Traits.Affinity(dna))
  {
  }

  lemma PatternMatchesWizardCard(dna: string)
    ensures GeneratePattern(dna) == WizardCard.GeneratePattern(dna)
  {
    var v := Traits.PatternValue(dna);
    assert RemJs(ParseInt(Substring(dna, 6, 10), Base16), 5) == v;
    WizardCard.PatternMatchesShared(dna);
  }

  lemma ElementMatchesWizardCard(dna: string)
    ensures GetWizardElement(dna) == WizardCard.GetWizardElement(dna)
  {
    var v := Traits.ElementValue(dna);
    assert RemJs(ParseInt(Substring(dna, 10, 12), Base16), 5) == v;
    WizardCard.ElementMatchesShared(dna);
  }

  /** For a DNA whose affinity slice starts with a hexadecimal digit (and
      is not a bare `0x`), the figure shown reads back as a number in
      [0, 100). */
  lemma AffinityShown(dna: string)
    requires var s := Substring(dna, 12, 14); |s| > 0 && IsDigit(s[0], 16) && !HexPrefix(s)
    ensures var a := ParseInt(AffinityText(dna), Unspecified); a.Val? && 0 <= a.v < 100
  {
    Traits.AffinityInRange(dna);
    var a := Traits.Affinity(dna);
    ParseIntToString(a.v, []);
    assert IntToString(a.v) + [] == AffinityText(dna);
  }

  /** Ownership ignores letter case on both sides and is symmetric between
      two non-empty addresses. */
  lemma IsOwnerIgnoresCase(account: string, seller: string)
    ensures IsOwner(Some(account), seller) <==> IsOwner(Some(account), ToLower(seller))
    ensures account != "" ==> (IsOwner(Some(account), seller) <==> IsOwner(Some(ToLower(account)), seller))
    ensures account != "" && seller != "" ==> (IsOwner(Some(account), seller) <==> IsOwner(Some(seller), account))
  {
    ToLowerIdempotent(account);
    ToLowerIdempotent(seller);
  }

  /** A visitor without a connected account, or with an empty one, always
      sees "Acquire Wizard". */
  lemma DisconnectedCannotCancel(tokenId: nat, seller: string, price: string)
    ensures Click(None, tokenId, seller, price) == BuyWizard(tokenId, price)
    ensures Click(Some(""), tokenId, seller, price) == BuyWizard(tokenId, price)
  {
  }

  /** The abbreviation keeps at most six leading and four trailing
      characters around "..."; a full 42-character address, or any of ten
      or more characters, becomes exactly 13 characters. A short seller
      string overlaps: below five characters it appears twice. */
  lemma SellerAbbrevShape(seller: string)
    ensures SellerAbbrev(seller) == seller[..Min(6, |seller|)] + "..." + seller[Max(|seller| - 4, 0)..]
    ensures |seller| >= 10 ==> |SellerAbbrev(seller)| == 13
    ensures |seller| <= 4 ==> SellerAbbrev(seller) == seller + "..." + seller
  {
  }
}
