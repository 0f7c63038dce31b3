# Academy front end: derivation and gating logic

This project models the client-side logic of the wizard/alpaca "academy"
web front end (a React single-page application), and proves properties of
that model in Dafny. The model covers:

- how a creature's DNA string is turned into its look (hue, pattern, element,
  magical affinity) with `parseInt(…, 16)` and a remainder;
- the rarity, potency and fertility bands;
- the time-gated actions on the cards and detail pages (train / meditate /
  harvest mana, feed / groom / shear, channel / cast, water / harvest) and
  the texts that show elapsed or remaining time;
- the marketplace's mock detail generator and its `||` fallbacks;
- the breeding form and the academy and farm page forms.

The contracts on the blockchain are not in this code base: every on-chain
action is modelled as the *request* a handler sends (`TrainWizard(id)`,
`SellMana(amount)`, …), and the proofs are about when a request is sent
and what it carries.

JavaScript's own semantics are written out in module `JsRuntime`:

- `parseInt` follows section 19.2.5 of ECMA-262: leading white space, an
  optional sign, an optional `0x` prefix for radix 16 or no radix, and the
  longest run of digits. An empty run gives `NaN`. A number is `JsInt`,
  which is `NaN` or `Val(v)`.
- `%` truncates toward zero.
- `substring` clamps and swaps its arguments.
- `padStart`, `toString(16)`, `trim` and ASCII `toLowerCase` are defined
  as well.
- Every comparison with `NaN` is false.

Everywhere the source reads the clock (`Math.floor(Date.now() / 1000)`), the
model takes `now` instead. React state is modelled as records: a state
setter is a record update, and a handler returns the request it makes
together with the next state.

The colour, pattern, element and rarity helpers appear, copied, in several
components. Module `Traits` defines them once. Each component module keeps
its own copy, as the source does, and a lemma proves that copy equal to the
shared definition, or to the copy in `WizardCard`.

Where the source's emoji literals were mangled by an encoding error,
module `TextEncoding` models the error itself: UTF-8 bytes read back as
Mac OS Roman, following RFC 3629 section 3 for UTF-8.

Modules, one per source file of the core:

- `Records`: the entity records of `src/context/WizardContext.tsx` and
  `src/context/AlpacaContext.tsx`.
- `WizardCard`, `WizardDetail`, `AlpacaCard`, `AlpacaDetail`,
  `MarketplaceCard`, `Marketplace`, `GrimoireCard`, `LandCard`,
  `BreedingForm`, `Academy` and `Farm`: the matching component or page.
- Shared modules: `Wrappers`, `JsRuntime`, `TextEncoding`, `TimeText` and
  `Traits`.

Two members are methods. `Marketplace.FetchWizardDetails` models the
`forEach` loop that fills the details dictionary: it is a `while` loop
proved against the specification function `DetailsOf`.
`Marketplace.ListingsChanged` models the effect that runs that fetch only
for a non-empty listing array.

The page and card sources are written as expressions over props and state,
so everything else is functions and lemmas.

## Model

| member | source | states |
|---|---|---|
| Traits.SliceValueInRange | src/components/WizardCard.tsx:39 | for a DNA slice that starts with a hex digit, the hex parse of the slice and its remainder by the modulus is a number exactly when the slice is not a bare `0x` prefix, and then lies in [0, modulus) |
| Traits.HueInRange | src/components/WizardCard.tsx:39 | a DNA that starts with a hex digit (and not with `0x`) has a numeric hue in [0, 360) |
| Traits.HueDependsOnPrefix | src/components/WizardCard.tsx:39 | the hue depends only on the first six characters of the DNA |
| Traits.PatternDefaultIff | src/components/WizardCard.tsx:45-53 | the `'none'` pattern is chosen exactly when the parsed pattern value is NaN or negative |
| Traits.ShortDnaHasNoPattern | src/components/WizardCard.tsx:45-53 | a DNA of at most six characters has a NaN pattern value and therefore the `'none'` pattern |
| Traits.ParsedPatternIsReal | src/components/WizardCard.tsx:45-53 | when dna[6..10] starts with a hex digit and is not a bare `0x`, one of the five real patterns is chosen |
| Traits.ElementUnknownIff | src/components/WizardCard.tsx:92-100 | the element is `Unknown` exactly when the parsed element value is NaN or negative |
| Traits.ParsedElementIsKnown | src/components/WizardCard.tsx:92-100 | when dna[10..12] starts with a hex digit (and not `0x`), the element is one of Fire, Water, Earth, Air and Arcane |
| Traits.AffinityInRange | src/components/MarketplaceCard.tsx:116 | when dna[12..14] starts with a hex digit (and not `0x`), the affinity is a number in [0, 100) |
| Traits.HexDnaHasAllTraits | src/components/WizardCard.tsx:39-100 | a DNA of at least 14 hex digits has a hue in [0, 360), a real pattern, a known element and an affinity in [0, 100) |
| Traits.DecimalDnaHasAllTraits | src/context/WizardContext.tsx:230 | the decimal DNA string the context builds from a uint256 (at least 14 digits) still gets every trait, although it is parsed as hex |
| Traits.HslColorShowsHue | src/components/WizardCard.tsx:38-41 | the CSS colour shows `hsl(NaN, 70%, 80%)` for a NaN hue; otherwise reading the number after `hsl(` back gives the hue |
| Traits.RarityColorFollowsLabel | src/components/WizardCard.tsx:73-88 | two rarities get the same colour exactly when they get the same label |
| Traits.RarityBandMonotone | src/components/WizardCard.tsx:82-88 | a higher rarity never gets a lower band |
| Traits.RarityBandIntervals | src/components/WizardCard.tsx:82-88 | Legendary is rarity >= 90, Epic [70, 90), Rare [50, 70), Uncommon [30, 50), Common below 30 |
| Traits.TierMonotone | src/components/GrimoireCard.tsx:80-86 | a higher potency or fertility never gets a lower colour tier |
| Traits.TierIntervals | src/components/GrimoireCard.tsx:80-86 | the tiers are exactly >= 80, [60, 80), [40, 60), [20, 40) and below 20 |
| TimeText.Bucket | src/components/WizardCard.tsx:57-65 | below 60 s the exact seconds; otherwise floor division into minutes in 1..59, hours in 1..23 or days >= 1, with count * unit <= seconds < (count + 1) * unit |
| TimeText.WordingsShowSameCount | src/pages/WizardDetail.tsx:65-73 | the short, long and countdown wordings all begin with the bucket's count, and reading it back gives that count |
| TimeText.CeilDiv | src/pages/WizardDetail.tsx:239 | `Math.ceil(a / b)` for positive operands is at least 1 and is the least q with a <= q * b |
| WizardCard.Click | src/components/WizardCard.tsx:180-209 | a button sends a request exactly when it is enabled; the request names the card's wizard and matches the button |
| WizardCard.ColorMatchesShared | src/components/WizardCard.tsx:38-41 | the card's colour is the shared HSL colour of the shared hue |
| WizardCard.PatternMatchesShared | src/components/WizardCard.tsx:44-54 | the card's pattern is the shared pattern of the DNA |
| WizardCard.ElementMatchesShared | src/components/WizardCard.tsx:91-101 | the card's element name, emoji and colour are the shared ones for the DNA's element |
| WizardCard.RarityMatchesShared | src/components/WizardCard.tsx:73-88 | the card's rarity label and colour are the shared band's |
| WizardCard.CooldownBoundaries | src/components/WizardCard.tsx:68-70 | each gate is strict: closed at exactly 14400, 43200 and 259200 s after the last action, open one second later |
| WizardCard.EnabledStaysEnabled | src/components/WizardCard.tsx:68-70 | an enabled action stays enabled as time passes |
| WizardCard.CooldownsNested | src/components/WizardCard.tsx:68-70 | for the same timestamp, harvest open implies meditate open, and meditate open implies train open |
| WizardCard.TimeSinceShowsElapsed | src/components/WizardCard.tsx:57-65 | the short text shows the bucket's count; below 60 s it is the exact seconds with "s ago", from a day on the whole days with "d ago" |
| WizardDetail.FindWizard | src/pages/WizardDetail.tsx:13 | `find` returns nothing exactly when no wizard has the id; otherwise it returns the first wizard with that id |
| WizardDetail.MissingIdIsZero | src/pages/WizardDetail.tsx:12 | a missing or empty route id is read as 0 |
| WizardDetail.ViewFindsRouteId | src/pages/WizardDetail.tsx:12-30 | the not-found view is shown exactly when no wizard has the parsed route id; otherwise the wizard shown is in the list and has that id |
| WizardDetail.DetailsLinkOpensWizard | src/components/WizardCard.tsx:220-221 | with unique ids, following a card's "/wizard/<id>" link opens that very wizard |
| WizardDetail.ColorMatchesCard | src/pages/WizardDetail.tsx:33-36 | the page's colour (and rarity label, lines 81-87) equal the card's |
| WizardDetail.PatternMatchesCard | src/pages/WizardDetail.tsx:39-48 | the page's pattern equals the card's |
| WizardDetail.ElementMatchesCard | src/pages/WizardDetail.tsx:52-61 | the page's element name, emoji and colour equal the card's; the grey background is used exactly for Air and Unknown |
| WizardDetail.Click | src/pages/WizardDetail.tsx:256-283 | a button sends its request exactly when its gate is open, for the shown wizard |
| WizardDetail.GatesMatchCard | src/pages/WizardDetail.tsx:76-78 | the page's gates and requests are the card's, for every button and time |
| WizardDetail.TimeSinceMatchesCard | src/pages/WizardDetail.tsx:65-73 | the long text shows the same figure as the card's short text, the bucket's count |
| WizardDetail.BreedingStatus | src/pages/WizardDetail.tsx:238-240 | a remaining-hours figure is shown exactly when the cooldown lies in the future; it is >= 1 and is the hours rounded up |
| WizardDetail.BreedingTextShowsHours | src/pages/WizardDetail.tsx:238-240 | while cooling down the text is "Ready in " followed by the remaining hours |
| WizardDetail.ToggleForm | src/pages/WizardDetail.tsx:295 | the toggle flips the form's visibility and keeps the price |
| WizardDetail.SetPrice | src/pages/WizardDetail.tsx:315 | typing changes the price and keeps the visibility |
| WizardDetail.ListingSubmit | src/pages/WizardDetail.tsx:90-95 | the listing is requested exactly for a non-empty price that parses to a positive number, with the route id and the price as typed |
| WizardDetail.ListingFormResets | src/pages/WizardDetail.tsx:15-19 | the reset form (hidden, empty price) and the form merely opened from it submit nothing; toggling twice changes nothing |
| AlpacaCard.Click | src/components/AlpacaCard.tsx:163-191 | a button sends a request exactly when it is enabled; the request names the card's alpaca and matches the button |
| AlpacaCard.ColorMatchesShared | src/components/AlpacaCard.tsx:38-41 | the card's colour is the shared HSL colour of the shared hue |
| AlpacaCard.PatternMatchesShared | src/components/AlpacaCard.tsx:44-54 | the card's pattern is the shared pattern of the DNA |
| AlpacaCard.RarityMatchesShared | src/components/AlpacaCard.tsx:73-88 | the card's rarity label and colour are the shared band's |
| AlpacaCard.CooldownBoundaries | src/components/AlpacaCard.tsx:68-70 | feed, groom and shear are closed at exactly 4 h, 12 h and 3 days and open one second later |
| AlpacaCard.EnabledStaysEnabled | src/components/AlpacaCard.tsx:68-70 | an enabled action stays enabled as time passes |
| AlpacaCard.CooldownsNested | src/components/AlpacaCard.tsx:68-70 | for the same timestamp, shear open implies groom open, and groom open implies feed open |
| AlpacaCard.TimeSinceShowsElapsed | src/components/AlpacaCard.tsx:57-65 | the short text shows the bucket's count, exact seconds below a minute and whole days from a day on |
| AlpacaDetail.FindAlpaca | src/pages/AlpacaDetail.tsx:13 | `find` returns nothing exactly when no alpaca has the id; otherwise the first alpaca with it |
| AlpacaDetail.MissingIdIsZero | src/pages/AlpacaDetail.tsx:12 | a missing or empty route id is read as 0 |
| AlpacaDetail.ViewFindsRouteId | src/pages/AlpacaDetail.tsx:12-30 | not-found exactly when no alpaca has the parsed id; otherwise the shown alpaca is in the list with that id |
| AlpacaDetail.DetailsLinkOpensAlpaca | src/components/AlpacaCard.tsx:202-203 | with unique ids, a card's "/alpaca/<id>" link opens that alpaca |
| AlpacaDetail.ColorMatchesCard | src/pages/AlpacaDetail.tsx:33-36 | the page's colour (and rarity label, lines 68-74) equal the card's |
| AlpacaDetail.PatternMatchesCard | src/pages/AlpacaDetail.tsx:39-48 | the page's pattern equals the card's |
| AlpacaDetail.Click | src/pages/AlpacaDetail.tsx:234-261 | a button sends its request exactly when its gate is open, for the shown alpaca |
| AlpacaDetail.GatesMatchCard | src/pages/AlpacaDetail.tsx:63-65 | the page's care gates and requests are the card's |
| AlpacaDetail.TimeSinceMatchesCard | src/pages/AlpacaDetail.tsx:52-60 | the long text shows the same figure as the card's short text |
| AlpacaDetail.BreedingStatus | src/pages/AlpacaDetail.tsx:216-218 | remaining hours are shown exactly when the cooldown is in the future, and are >= 1, rounded up |
| AlpacaDetail.BreedingTextShowsHours | src/pages/AlpacaDetail.tsx:216-218 | while cooling down the text is "Ready in " followed by the remaining hours |
| AlpacaDetail.ToggleForm | src/pages/AlpacaDetail.tsx:273 | the toggle flips visibility and keeps the price |
| AlpacaDetail.SetPrice | src/pages/AlpacaDetail.tsx:293 | typing changes the price and keeps the visibility |
| AlpacaDetail.ListingSubmit | src/pages/AlpacaDetail.tsx:77-82 | the listing is requested exactly for a non-empty, positive price, with the route id |
| AlpacaDetail.ListingFormResets | src/pages/AlpacaDetail.tsx:15-19 | the reset form and the form opened from it submit nothing; toggling twice changes nothing |
| MarketplaceCard.Click | src/components/MarketplaceCard.tsx:127-142 | exactly one action: cancel for the owner, buy at the listed price otherwise, always for the card's token |
| MarketplaceCard.ColorMatchesWizardCard | src/components/MarketplaceCard.tsx:27-74 | colour, rarity colour and rarity label equal the wizard card's; the affinity text is the shared affinity |
| MarketplaceCard.PatternMatchesWizardCard | src/components/MarketplaceCard.tsx:33-44 | the pattern equals the wizard card's |
| MarketplaceCard.ElementMatchesWizardCard | src/components/MarketplaceCard.tsx:46-57 | the element name, emoji and colour equal the wizard card's |
| MarketplaceCard.AffinityShown | src/components/MarketplaceCard.tsx:116 | for a parseable dna[12..14] the text shows a number in 0..99 |
| MarketplaceCard.IsOwnerIgnoresCase | src/components/MarketplaceCard.tsx:77 | ownership ignores the case of the seller and (for a connected account) of the account, and is symmetric |
| MarketplaceCard.DisconnectedCannotCancel | src/components/MarketplaceCard.tsx:77 | without an account, or with an empty one, the card offers to buy |
| MarketplaceCard.SellerAbbrevShape | src/components/MarketplaceCard.tsx:123 | the abbreviation is the first six characters, "...", and the last four; 13 characters for an address of 10 or more |
| Marketplace.DefaultName | src/pages/Marketplace.tsx:30 | the mock name is "Wizard #" followed by text that reads back as the token id |
| Marketplace.MockDetails | src/pages/Marketplace.tsx:24-34 | the mock level is in [1, 20], the rarity in [1, 100], the DNA has at least 16 characters |
| Marketplace.DetailsOfStep | src/pages/Marketplace.tsx:29-34 | one more listing sets the entry of its token to that token's mock, overwriting an earlier one |
| Marketplace.FetchWizardDetails | src/pages/Marketplace.tsx:18-37 | the loop builds exactly the map `DetailsOf(listings)`: one mock entry per listed token id |
| Marketplace.ListingsChanged | src/pages/Marketplace.tsx:40-42 | details are recomputed for a non-empty listing array; an empty one leaves the previous details in place |
| Marketplace.DetailsOfListings | src/pages/Marketplace.tsx:22-35 | a token id has an entry exactly when some listing has it, and the entry is the mock for that id (a repeated id gives one entry) |
| Marketplace.MockDnaRoundTrip | src/pages/Marketplace.tsx:25 | the mock DNA is all hex digits, and parsing it as hex gives tokenId * 12345 back |
| Marketplace.MockDnaLength | src/pages/Marketplace.tsx:25 | the mock DNA has at least 16 characters, exactly 16 when tokenId * 12345 < 16^16 |
| Marketplace.MockDnaHasAllTraits | src/pages/Marketplace.tsx:25 | every mock DNA gets a hue in [0, 360), a real pattern, a known element and an affinity in [0, 100) |
| Marketplace.CardPropsOf | src/pages/Marketplace.tsx:95-103 | a card keeps the listing's token, seller and price, and its name, level, rarity and DNA are never falsy |
| Marketplace.FetchedCardsShowMockDetails | src/pages/Marketplace.tsx:99-102 | after fetching, every card shows its mock details; with no details it shows "Wizard #id", level 1, rarity 1 and sixteen zeros |
| Marketplace.FallbackDnaTraits | src/pages/Marketplace.tsx:102 | the fallback DNA "0000000000000000" gives hue 0, the transparent pattern and Fire |
| Marketplace.Render | src/pages/Marketplace.tsx:45-106 | the connect screen exactly without an account; with one, the loading text exactly while loading, the empty notice exactly for no listings, otherwise the grid with one card per listing, in order |
| GrimoireCard.PanelOf | src/components/GrimoireCard.tsx:129-156 | inscription panel exactly when empty, casting panel exactly when ready to cast, channeling panel exactly while the cast time is ahead |
| GrimoireCard.SelectSpell | src/components/GrimoireCard.tsx:219 | choosing a spell keeps the wizard choice |
| GrimoireCard.SelectWizard | src/components/GrimoireCard.tsx:164 | the placeholder clears the wizard choice; any other option selects that wizard; the spell choice is kept |
| GrimoireCard.Press | src/components/GrimoireCard.tsx:66-77 | Inscribe acts exactly for an empty grimoire with spells > 0, Cast when ready with a wizard chosen, Channel while the cast time is ahead and channeling is due; each carries the grimoire and its choice |
| GrimoireCard.CastTextMatchesState | src/components/GrimoireCard.tsx:33-37 | the cast text is empty exactly for an empty grimoire, and "Ready to cast!" exactly when it can be cast (inclusive) |
| GrimoireCard.CountdownShowsTimeLeft | src/components/GrimoireCard.tsx:39-43 | before the cast time the countdown shows a positive count of the remaining time's bucket |
| GrimoireCard.ChannelTextMatchesState | src/components/GrimoireCard.tsx:47-48 | "Not channeled yet" exactly when empty or never channeled |
| GrimoireCard.CastUsesChosenWizard | src/components/GrimoireCard.tsx:73-77 | with the placeholder nothing is cast; once ready, casting uses the chosen wizard |
| GrimoireCard.InscribeDefaultsToFireball | src/components/GrimoireCard.tsx:29 | from the initial state, inscribing requests "Fireball" |
| GrimoireCard.OneButtonActs | src/components/GrimoireCard.tsx:129-234 | at any moment at most one of the three buttons can act |
| GrimoireCard.PotencyColorByTier | src/components/GrimoireCard.tsx:80-86 | two potencies get the same colour exactly when they are in the same tier |
| GrimoireCard.SpellEmojiIgnoresCase | src/components/GrimoireCard.tsx:89-104 | the emoji depends on the spell type only up to case |
| GrimoireCard.SpellEmojiByState | src/components/GrimoireCard.tsx:89-104 | no emoji exactly for an empty grimoire; an unknown spell type gets the scroll |
| GrimoireCard.SpellEmojiAsWrittenIsMisread | src/components/GrimoireCard.tsx:93-102 | every literal as written is the intended emoji's UTF-8 bytes read as Mac OS Roman |
| GrimoireCard.FireballEmojiAsWritten | src/components/GrimoireCard.tsx:93-94 | as written, a Fireball grimoire shows four characters that differ from the fire emoji of the element badge |
| GrimoireCard.SpellEmojiMatchesElements | src/components/GrimoireCard.tsx:93-100 | corrected, Fireball and Arcane Missile show the Fire and Arcane element emoji, and the four offered spells show four different emoji |
| LandCard.PanelOf | src/components/LandCard.tsx:127-154 | planting panel exactly when unplanted, harvesting exactly when ready, watering while the harvest time is ahead |
| LandCard.SelectCrop | src/components/LandCard.tsx:217 | choosing a crop keeps the alpaca choice |
| LandCard.SelectAlpaca | src/components/LandCard.tsx:162 | the placeholder clears the alpaca choice; another option selects that alpaca |
| LandCard.Press | src/components/LandCard.tsx:66-77 | Plant acts exactly for an unplanted plot with seeds > 0, Harvest when ready with an alpaca chosen, Water while growing and due; each carries the plot and its choice |
| LandCard.HarvestTextMatchesState | src/components/LandCard.tsx:33-37 | empty exactly when unplanted, "Ready to harvest!" exactly when ready (inclusive) |
| LandCard.CountdownShowsTimeLeft | src/components/LandCard.tsx:39-43 | before the harvest time the countdown shows a positive count |
| LandCard.WaterTextMatchesState | src/components/LandCard.tsx:47-48 | "Not watered yet" exactly when unplanted or never watered |
| LandCard.HarvestUsesChosenAlpaca | src/components/LandCard.tsx:73-77 | with the placeholder nothing is harvested; once ready, harvesting uses the chosen alpaca |
| LandCard.PlantDefaultsToWheat | src/components/LandCard.tsx:29 | from the initial state, planting requests "Wheat" |
| LandCard.OneButtonActs | src/components/LandCard.tsx:127-232 | at most one of the three buttons can act |
| LandCard.FertilityColorByTier | src/components/LandCard.tsx:80-86 | same colour exactly in the same fertility tier |
| LandCard.CropImageByType | src/components/LandCard.tsx:89-101 | the four crops get four different images, case is ignored, and any other type gets wheat's image, whether or not the plot is planted |
| BreedingForm.Breedable | src/components/BreedingForm.tsx:17 | the breedable wizards are exactly the listed ones with level >= 5 |
| BreedingForm.BreedableAppend | src/components/BreedingForm.tsx:17 | the filter distributes over concatenation, so it keeps the original order |
| BreedingForm.HandleSubmit | src/components/BreedingForm.tsx:19-26 | breeding is requested exactly when both parents are chosen and differ, with those parents, and the form is then reset |
| BreedingForm.SubmitResetsForm | src/components/BreedingForm.tsx:23-24 | after a submission the button is disabled and a second submit sends nothing; while loading it is disabled |
| BreedingForm.EnabledOptionKeepsParentsApart | src/components/BreedingForm.tsx:59 | from any form, picking an enabled option never makes the two parents equal |
| BreedingForm.Choose | src/components/BreedingForm.tsx:53 | corrected: the placeholder clears the choice, another option selects its wizard |
| BreedingForm.SelectedParentsWereChosen | src/components/BreedingForm.tsx:53-79 | corrected: a selected parent is always one the user picked on that side |
| BreedingForm.PlaceholderSelectsWizardZero | src/components/BreedingForm.tsx:53-57 | as written: picking 3 and 4, then the first placeholder, selects wizard 0, which was never picked, and submitting breeds 0 with 4 |
| BreedingForm.PlaceholderClearsSelection | src/components/BreedingForm.tsx:53-57 | corrected: the same events clear the first parent and submit nothing |
| Academy.LoadsWhenConnected | src/pages/Academy.tsx:14-20 | the effect loads grimoires exactly when the page gets past the connect prompt, which is exactly for a present, non-empty account |
| Academy.View | src/pages/Academy.tsx:131-186 | connect screen exactly without an account; market tab; loading text, empty notice or one card per grimoire in order |
| Academy.SelectTab | src/pages/Academy.tsx:106-125 | a tab button changes only the active tab |
| Academy.SetGrimoireName | src/pages/Academy.tsx:139 | typing changes only the name |
| Academy.SetScrollAmount | src/pages/Academy.tsx:213 | the scroll amount becomes the `parseInt` of the text; nothing else changes |
| Academy.SetSpellAmount | src/pages/Academy.tsx:246 | the spell amount becomes the `parseInt` of the text |
| Academy.SetManaAmount | src/pages/Academy.tsx:280 | the mana amount becomes the `parseInt` of the text |
| Academy.HandleBuyGrimoire | src/pages/Academy.tsx:37-43 | a grimoire is bought exactly when the trimmed name is non-empty, under the untrimmed name, and the name is cleared; otherwise nothing changes |
| Academy.HandleConvertScrolls | src/pages/Academy.tsx:45-50 | conversion is requested exactly when 0 < amount <= scrolls, with an amount in [1, scrolls] |
| Academy.HandleBuySpells | src/pages/Academy.tsx:52-57 | spells are bought exactly for an amount > 0, with no upper bound |
| Academy.HandleSellMana | src/pages/Academy.tsx:59-64 | mana is sold exactly when 0 < amount <= mana |
| Academy.ButtonsMatchHandlers | src/pages/Academy.tsx:219 | for a numeric amount each button (lines 219, 252, 286) is enabled exactly when its handler sends a request |
| Academy.EmptiedInputIsIgnored | src/pages/Academy.tsx:213-219 | an emptied input gives NaN: the button is enabled but the handler sends nothing |
| Academy.TypedAmountIsSent | src/pages/Academy.tsx:213 | typing an integer, with or without a fraction, stores it, and the request carries it whenever the guard admits it |
| Academy.BuyGrimoireNeedsName | src/pages/Academy.tsx:39-41 | nothing is bought exactly for an all-whitespace name; after a purchase an immediate resubmit buys nothing |
| Academy.InitialAmounts | src/pages/Academy.tsx:9-11 | the initial amount 1 buys one spell and converts or sells exactly when the player has at least one scroll or mana |
| Farm.LoadsWhenConnected | src/pages/Farm.tsx:14-20 | the effect loads lands exactly when the page gets past the connect prompt, which is exactly for a present, non-empty account |
| Farm.View | src/pages/Farm.tsx:131-186 | connect screen exactly without an account; market tab; loading, empty notice or one card per land plot |
| Farm.SelectTab | src/pages/Farm.tsx:106-125 | a tab button changes only the active tab |
| Farm.SetLandName | src/pages/Farm.tsx:139 | typing changes only the name |
| Farm.SetCropAmount | src/pages/Farm.tsx:213 | the crop amount becomes the `parseInt` of the text |
| Farm.SetSeedAmount | src/pages/Farm.tsx:246 | the seed amount becomes the `parseInt` of the text |
| Farm.SetWoolAmount | src/pages/Farm.tsx:280 | the wool amount becomes the `parseInt` of the text |
| Farm.HandleBuyLand | src/pages/Farm.tsx:37-43 | a land plot is bought exactly for a name with non-blank content, sent untrimmed, and the name is cleared |
| Farm.HandleConvertCrops | src/pages/Farm.tsx:45-50 | conversion is requested exactly when 0 < amount <= crops |
| Farm.HandleBuySeeds | src/pages/Farm.tsx:52-57 | seeds are bought exactly for an amount > 0 |
| Farm.HandleSellWool | src/pages/Farm.tsx:59-64 | wool is sold exactly when 0 < amount <= wool |
| Farm.ButtonsMatchHandlers | src/pages/Farm.tsx:219 | for a numeric amount each button (lines 219, 252, 286) is enabled exactly when its handler acts |
| Farm.EmptiedInputIsIgnored | src/pages/Farm.tsx:213-219 | an emptied input leaves the button enabled while the handler does nothing |
| Farm.TypedAmountIsSent | src/pages/Farm.tsx:213 | a typed integer is stored and sent whenever the guard admits it |
| Farm.BuyLandNeedsName | src/pages/Farm.tsx:39-41 | nothing is bought exactly for an all-whitespace name; a resubmit after a purchase buys nothing |
| Farm.InitialAmounts | src/pages/Farm.tsx:9-11 | the initial amount 1 buys one seed, and converts or sells exactly when the player holds at least one crop or wool |
| JsRuntime.ParseDigits | src/components/WizardCard.tsx:39 | `parseInt` of a digit run followed by a non-digit (or nothing) is the run's value |
| JsRuntime.ParseStartingWithDigit | src/components/WizardCard.tsx:39 | a string that starts with a digit parses unless it is a bare `0x`, and the value is below 16^length |
| JsRuntime.ToBaseRoundTrip | src/pages/Marketplace.tsx:25 | the digits of `toString(base)` have the number's value |
| JsRuntime.PadStartShape | src/pages/Marketplace.tsx:25 | `padStart` prepends fill characters up to the width and keeps the string |
| JsRuntime.TrimEmptyIff | src/pages/Academy.tsx:39 | `trim()` is empty exactly for an all-whitespace string |
| JsRuntime.ToLowerIdempotent | src/components/MarketplaceCard.tsx:77 | lower-casing twice is lower-casing once |
| TextEncoding.MisreadAppend | src/components/GrimoireCard.tsx:93-102 | reading UTF-8 as Mac OS Roman works character by character |
| TextEncoding.MisreadKeepsAscii | src/components/GrimoireCard.tsx:93-102 | the misreading changes a string exactly when it has a non-ASCII character |

## Left out

- The blockchain contracts (minting, breeding, conversion, escrow) are not part of this code base, so they are not modelled. A handler's effect is the request it makes.
- `src/context/WizardContext.tsx` and `src/context/AlpacaContext.tsx` are left out: the provider, contract calls, wallet connection, async loaders, events, and the loading and error flags. Only their record shapes (lines 44-83) are modelled. `loading`, `account` and the resource balances are parameters.
- Clock: `Date.now()` is never read. `now` is a parameter in Unix seconds, as `Math.floor(Date.now() / 1000)` gives it.
- Floating point is left out:
  - `parseFloat(price) > 0` on the detail pages is the boolean parameter `pricePositive`;
  - the progress-bar widths of the grimoire and land cards;
  - the ether amounts in button labels.
- JsRuntime.ParseInt: numbers above 2^53 are not rounded to doubles, so `parseInt` of a long digit run is exact. The DNA slices used are at most six hex digits, so this matters nowhere in the model.
- JsRuntime.ToLower: only ASCII letters are lower-cased; full Unicode case mapping is not modelled.
- The pattern gradients are an enum of the five patterns plus `'none'`, not the CSS strings. Other CSS classes and the JSX markup are not modelled, except the band colours, element badges and texts.
- Select inputs (`Number(e.target.value)` and `e.target.value ? Number(...) : ''`) are a `Choice` (a placeholder or an option's id). Arbitrary option text cannot occur, so it is not modelled.
- The browser's `required` and `min` validation of form inputs is not modelled; see the finding below.
- Routing is not modelled beyond the id parameter, nor are the `Link` elements beyond the path text.
- The await order of an async handler is not modelled. The breeding form's reset after `breedWizards` is modelled as happening after the request, because that call catches its own errors.
- The pages and components outside the core are not modelled: src/App.tsx, src/pages/Home.tsx, src/pages/MyWizards.tsx and src/pages/MyAlpacas.tsx, src/components/Navbar.tsx and src/components/Footer.tsx, src/components/SummonWizardForm.tsx and src/components/MintAlpacaForm.tsx.
- scripts/deploy.js is deployment I/O and is not modelled.
- The conversion-ratio prose on the market tabs is a claim about the contracts and is not modelled.

## Findings

| source | as written | input that shows it | evidently intended | confidence | as-written member | corrected member |
|---|---|---|---|---|---|---|
| src/components/BreedingForm.tsx:53 | `setParent1(Number(e.target.value))` turns the placeholder's value "" into 0 (line 73 does the same for the second select), so returning to "Select parent" selects wizard 0 | pick wizard 3 first, wizard 4 second, then the first select's placeholder: the form holds parents 0 and 4, the submit button is enabled, and submitting requests breeding 0 with 4 | the placeholder clears the choice, as GrimoireCard.tsx:164 and LandCard.tsx:162 do with `e.target.value ? Number(...) : ''` | not executed; the `required` attribute usually stops the browser from submitting while the placeholder is shown, unless a breedable wizard has id 0 | BreedingForm.PlaceholderSelectsWizardZero | BreedingForm.SelectedParentsWereChosen |
| src/components/GrimoireCard.tsx:93-102 | the spell emoji literals are the UTF-8 bytes of the emoji decoded as Mac OS Roman: the card shows four stray characters instead of the fire emoji | an inscribed grimoire whose spell type is "Fireball" | the emoji 🔥, ❄️, ✨, 💚 and 📜, matching the element badges elsewhere | not executed | GrimoireCard.FireballEmojiAsWritten | GrimoireCard.SpellEmojiMatchesElements |
