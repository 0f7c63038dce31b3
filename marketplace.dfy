/**
 * The marketplace page: listings are loaded once a wallet is connected;
 * for every listing the page makes up display details from the token id
 * (a mock DNA, level, rarity and name), and each card falls back to fixed
 * defaults for a listing without details.
 */
module Marketplace {
  import opened JsRuntime
  import opened Wrappers
  import opened Records
  import Traits

  /** The made-up details of one token. */
  datatype Details = Details(name: string, dna: string, level: int, rarity: int)

  /** The props each `MarketplaceCard` receives. */
  datatype CardProps = CardProps(tokenId: nat, seller: string, price: string,
                                 name: string, level: int, rarity: int, dna: string)

  /** What the page renders. */
  datatype Screen = ConnectWallet | Loading | NoListings | Grid(cards: seq<CardProps>)

  /** The multiplier of the mock DNA. */
  const DnaFactor: nat := 12345

  /** `(BigInt(tokenId) * BigInt(12345)).toString(16).padStart(16, '0')` */
  function MockDna(tokenId: nat): string {
    PadStart(ToBase(tokenId * DnaFactor, 16), 16, '0')
  }

  /** `"Wizard #" + tokenId`, the name used both for made-up details and as
      the card's fallback. */
  function DefaultName(tokenId: nat): (r: string)
    ensures |r| > 8 && r[..8] == "Wizard #"
    ensures ParseInt(r[8..], Unspecified) == Val(tokenId)
  {
    var z := ToDecimal(tokenId);
    ParseIntToString(tokenId, []);
    assert IntToString(tokenId) + [] == z;
    assert ("Wizard #" + z)[8..] == z;
    "Wizard #" + z
  }

  /** The details the mock fetch makes up for one token. */
  function MockDetails(tokenId: nat): (d: Details)
    ensures 1 <= d.level <= 20 && 1 <= d.rarity <= 100
    ensures d.name == DefaultName(tokenId) && |d.dna| >= 16
  {
    PadStartShape(ToBase(tokenId * DnaFactor, 16), 16, '0');
    Details(DefaultName(tokenId), MockDna(tokenId), tokenId % 20 + 1, tokenId % 100 + 1)
  }

  function TokenIds(listings: seq<Listing>): set<nat> {
    set l | l in listings :: l.tokenId
  }

  /** The record `fetchWizardDetails` builds: one entry per listed token. */
  function DetailsOf(listings: seq<Listing>): map<nat, Details> {
    map t | t in TokenIds(listings) :: MockDetails(t)
  }

  /** One more listing adds (or overwrites) the entry for its token. */
  lemma DetailsOfStep(listings: seq<Listing>, i: nat)
    requires i < |listings|
    ensures DetailsOf(listings[..i + 1]) ==
      DetailsOf(listings[..i])[listings[i].tokenId := MockDetails(listings[i].tokenId)]
  {
    var t := listings[i].tokenId;
    assert TokenIds(listings[..i + 1]) == TokenIds(listings[..i]) + {t} by {
      assert listings[..i + 1] == listings[..i] + [listings[i]];
    }
  }

  /** The `forEach` loop of `fetchWizardDetails`. */
  method FetchWizardDetails(listings: seq<Listing>) returns (details: map<nat, Details>)
    ensures details == DetailsOf(listings)
  {
    details := map[];
    var i := 0;
    while i < |listings|
      invariant 0 <= i <= |listings|
      invariant details == DetailsOf(listings[..i])
    {
      var tokenId := listings[i].tokenId;
      DetailsOfStep(listings, i);
      details := details[tokenId := MockDetails(tokenId)];
      i := i + 1;
    }
    assert listings[..i] == listings;
  }

  /** The effect on `[listings]`: details are rebuilt from scratch for a
      non-empty list; an empty list leaves the previous details in place. */
  method ListingsChanged(previous: map<nat, Details>, listings: seq<Listing>) returns (next: map<nat, Details>)
    ensures |listings| > 0 ==> next == DetailsOf(listings)
    ensures |listings| == 0 ==> next == previous
  {
    next := previous;
    if |listings| > 0 {
      next := FetchWizardDetails(listings);
    }
  }

  /** The effect on `[account]`: listings are loaded for a truthy account. */
  predicate LoadsListings(account: Option<string>) {
    account.Some? && account.value != ""
  }

  /** The `||` fallbacks of the card props: a missing entry, an empty
      string or a zero falls back. */
  function CardPropsOf(details: map<nat, Details>, listing: Listing): (p: CardProps)
    ensures p.tokenId == listing.tokenId && p.seller == listing.seller && p.price == listing.price
    ensures p.name != "" && p.level != 0 && p.rarity != 0 && p.dna != ""
  {
    var t := listing.tokenId;
    var d := if t in details then Some(details[t]) else None;
    CardProps(t, listing.seller, listing.price,
      if d.Some? && d.value.name != "" then d.value.name else DefaultName(t),
      if d.Some? && d.value.level != 0 then d.value.level else 1,
      if d.Some? && d.value.rarity != 0 then d.value.rarity else 1,
      if d.Some? && d.value.dna != "" then d.value.dna else "0000000000000000")
  }

  function Render(account: Option<string>, loading: bool, listings: seq<Listing>, details: map<nat, Details>): (s: Screen)
    ensures s.ConnectWallet? <==> !LoadsListings(account)
    ensures s.Loading? <==> LoadsListings(account) && loading
    ensures s.NoListings? <==> LoadsListings(account) && !loading && |listings| == 0
    ensures s.Grid? <==> LoadsListings(account) && !loading && |listings| > 0
    ensures s.Grid? ==> (|s.cards| == |listings| > 0 &&
      forall i :: 0 <= i < |listings| ==> s.cards[i] == CardPropsOf(details, listings[i]))
  {
    if !LoadsListings(account) then ConnectWallet
    else if loading then Loading
    else if |listings| == 0 then NoListings
    else Grid(seq(|listings|, i requires 0 <= i < |listings| => CardPropsOf(details, listings[i])))
  }

  // ---------------------------------------------------------------------
  // Properties

  /** The mock DNA reads back, as hexadecimal, to `12345 * tokenId`. */
  lemma MockDnaRoundTrip(tokenId: nat)
    ensures AllDigits(MockDna(tokenId), 16)
    ensures ParseInt(MockDna(tokenId), Base16) == Val(tokenId * DnaFactor)
  {
    var n := tokenId * DnaFactor;
    var z := ToBase(n, 16);
    var k: nat := if |z| >= 16 then 0 else 16 - |z|;
    assert MockDna(tokenId) == Repeat('0', k) + z;
    DigitsValueLeadingZeros(k, z, 16);
    ToBaseRoundTrip(n, 16);
    ParseDigits(MockDna(tokenId), [], Base16);
    assert MockDna(tokenId) + [] == MockDna(tokenId);
  }

  /** The mock DNA has exactly 16 characters while `12345 * tokenId` fits
      in 16 hexadecimal digits, and is never shorter. */
  lemma MockDnaLength(tokenId: nat)
    ensures |MockDna(tokenId)| >= 16
    ensures |MockDna(tokenId)| == 16 <==> tokenId * DnaFactor < Pow(16, 16)
  {
    PadStartShape(ToBase(tokenId * DnaFactor, 16), 16, '0');
    ToBaseFits(tokenId * DnaFactor, 16, 16);
  }

  /** Every mock DNA has all of its traits defined. */
  lemma MockDnaHasAllTraits(tokenId: nat)
    ensures Traits.Hue(MockDna(tokenId)).Val? && 0 <= Traits.Hue(MockDna(tokenId)).v < 360
    ensures Traits.PatternOfDna(MockDna(tokenId)) != Traits.NoPattern
    ensures Traits.ElementOfDna(MockDna(tokenId)) != Traits.Unknown
    ensures Traits.Affinity(MockDna(tokenId)).Val? && 0 <= Traits.Affinity(MockDna(tokenId)).v < 100
  {
    MockDnaRoundTrip(tokenId);
    MockDnaLength(tokenId);
    Traits.HexDnaHasAllTraits(MockDna(tokenId));
  }

  /** The fetched record holds an entry exactly for the listed tokens, and
      each entry is the token's made-up details whichever listing of it
      came last. */
  lemma DetailsOfListings(listings: seq<Listing>, t: nat)
    ensures t in DetailsOf(listings) <==> exists i :: 0 <= i < |listings| && listings[i].tokenId == t
    ensures t in DetailsOf(listings) ==> DetailsOf(listings)[t] == MockDetails(t)
  {
    if t in DetailsOf(listings) {
      var l :| l in listings && l.tokenId == t;
      var i :| 0 <= i < |listings| && listings[i] == l;
    }
  }

  /** Once details are fetched, no fallback fires: every card shows the
      made-up details of its token. Before, only the name is already
      right; level and rarity show 1 and the DNA is all zeros. */
  lemma FetchedCardsShowMockDetails(listings: seq<Listing>, k: nat)
    requires 0 <= k < |listings|
    ensures var p := CardPropsOf(DetailsOf(listings), listings[k]); var d := MockDetails(listings[k].tokenId);
      p.name == d.name && p.level == d.level && p.rarity == d.rarity && p.dna == d.dna
    ensures var p := CardPropsOf(map[], listings[k]);
      p.name == DefaultName(listings[k].tokenId) && p.level == 1 && p.rarity == 1 && p.dna == "0000000000000000"
  {
    DetailsOfListings(listings, listings[k].tokenId);
  }

  /** A run of zeros reads as 0. */
  lemma ZerosParse(k: nat)
    requires k > 0
    ensures ParseInt(Repeat('0', k), Base16) == Val(0)
  {
    DigitsValueLeadingZeros(k, [], 16);
    assert Repeat('0', k) + [] == Repeat('0', k);
    ParseDigits(Repeat('0', k), [], Base16);
  }

  /** The fallback DNA of sixteen zeros gives hue 0, the first pattern and
      the Fire element. */
  lemma FallbackDnaTraits()
    ensures Traits.Hue("0000000000000000") == Val(0)
    ensures Traits.PatternOfDna("0000000000000000") == Traits.Transparent
    ensures Traits.ElementOfDna("0000000000000000") == Traits.Fire
  {
    var dna := Repeat('0', 16);
    assert dna == "0000000000000000";
    assert Substring(dna, 0, 6) == Repeat('0', 6);
    assert Substring(dna, 6, 10) == Repeat('0', 4);
    assert Substring(dna, 10, 12) == Repeat('0', 2);
    ZerosParse(6);
    ZerosParse(4);
    ZerosParse(2);
  }
}
