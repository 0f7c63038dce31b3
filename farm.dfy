/**
 * The farm page: with a wallet connected it shows the player's resources
 * and two tabs. "My Land Plots" lists the land cards and has a form to buy
 * a named land plot; "Resource Market" has three forms that convert crops
 * to seeds, buy seeds and sell wool. Amount inputs are
 * read with `parseInt`, so an emptied input holds NaN.
 */
module Farm {
  import opened JsRuntime
  import opened Wrappers
  import opened Records

  datatype Tab = LandsTab | MarketTab

  /** The page's own state. */
  datatype Page = Page(landName: string, seedAmount: JsInt, cropAmount: JsInt,
                       woolAmount: JsInt, activeTab: Tab)

  const InitialPage: Page := Page("", Val(1), Val(1), Val(1), LandsTab)

  /** The calls the page makes into the alpaca context. */
  datatype Request =
    | BuyLandPlot(name: string)
    | ConvertCropsToSeeds(amount: int)
    | BuySeeds(amount: int)
    | SellWool(amount: int)

  /** An account is truthy when there is one and it is not empty. */
  predicate Connected(account: Option<string>) {
    account.Some? && account.value != ""
  }

  /** The effect on `[account]`: lands are loaded for a truthy account. */
  predicate LoadsLands(account: Option<string>) {
    Connected(account)
  }

  /** What the page shows: a connect prompt without an account, otherwise
      the active tab; the lands tab shows a loading text, an empty
      notice or one card per land plot, in order. */
  datatype Screen =
    | ConnectWallet
    | LoadingLands
    | NoLands
    | LandGrid(cards: seq<LandPlot>)
    | ResourceMarket

  function View(account: Option<string>, page: Page, loading: bool, lands: seq<LandPlot>): (r: Screen)
    ensures r.ConnectWallet? <==> !Connected(account)
    ensures r.ResourceMarket? <==> Connected(account) && page.activeTab.MarketTab?
    ensures r.LandGrid? ==> r.cards == lands && |lands| > 0 && !loading
    ensures r.NoLands? <==> Connected(account) && page.activeTab.LandsTab? && !loading && |lands| == 0
    ensures r.LoadingLands? <==> Connected(account) && page.activeTab.LandsTab? && loading
  {
    if !Connected(account) then ConnectWallet
    else if page.activeTab == MarketTab then ResourceMarket
    else if loading then LoadingLands
    else if |lands| == 0 then NoLands
    else LandGrid(lands)
  }

  function SelectTab(page: Page, tab: Tab): (r: Page)
    ensures r == page.(activeTab := tab)
  {
    page.(activeTab := tab)
  }

  function SetLandName(page: Page, text: string): (r: Page)
    ensures r == page.(landName := text)
  {
    page.(landName := text)
  }

  /** `setCropAmount(parseInt(e.target.value))` and its two siblings. */
  function SetCropAmount(page: Page, text: string): (r: Page)
    ensures r == page.(cropAmount := ParseInt(text, Unspecified))
  {
    page.(cropAmount := ParseInt(text, Unspecified))
  }

  function SetSeedAmount(page: Page, text: string): (r: Page)
    ensures r == page.(seedAmount := ParseInt(text, Unspecified))
  {
    page.(seedAmount := ParseInt(text, Unspecified))
  }

  function SetWoolAmount(page: Page, text: string): (r: Page)
    ensures r == page.(woolAmount := ParseInt(text, Unspecified))
  {
    page.(woolAmount := ParseInt(text, Unspecified))
  }

  /** `handleBuyLand`: a name that is not blank is sent as typed, and
      the input is cleared. */
  function HandleBuyLand(page: Page): (r: (Option<Request>, Page))
    ensures r.0.Some? <==> Trim(page.landName) != ""
    ensures r.0.Some? ==> r.0.value == BuyLandPlot(page.landName) && r.1 == page.(landName := "")
    ensures r.0.None? ==> r.1 == page
  {
    if Trim(page.landName) != "" then (Some(BuyLandPlot(page.landName)), page.(landName := ""))
    else (None, page)
  }

  /** `handleConvertCrops`: `cropAmount > 0 && cropAmount <= crops`. */
  function HandleConvertCrops(page: Page, resources: FarmResources): (r: Option<Request>)
    ensures r.Some? <==> Greater(page.cropAmount, 0) && AtMost(page.cropAmount, resources.crops)
    ensures r.Some? ==> r.value == ConvertCropsToSeeds(page.cropAmount.v) && 1 <= r.value.amount <= resources.crops
  {
    if Greater(page.cropAmount, 0) && AtMost(page.cropAmount, resources.crops)
    then Some(ConvertCropsToSeeds(page.cropAmount.v)) else None
  }

  /** `handleBuySeeds`: `seedAmount > 0`. */
  function HandleBuySeeds(page: Page): (r: Option<Request>)
    ensures r.Some? <==> Greater(page.seedAmount, 0)
    ensures r.Some? ==> r.value == BuySeeds(page.seedAmount.v) && r.value.amount >= 1
  {
    if Greater(page.seedAmount, 0) then Some(BuySeeds(page.seedAmount.v)) else None
  }

  /** `handleSellWool`: `woolAmount > 0 && woolAmount <= wool`. */
  function HandleSellWool(page: Page, resources: FarmResources): (r: Option<Request>)
    ensures r.Some? <==> Greater(page.woolAmount, 0) && AtMost(page.woolAmount, resources.wool)
    ensures r.Some? ==> r.value == SellWool(page.woolAmount.v) && 1 <= r.value.amount <= resources.wool
  {
    if Greater(page.woolAmount, 0) && AtMost(page.woolAmount, resources.wool)
    then Some(SellWool(page.woolAmount.v)) else None
  }

  /** The `disabled` attributes; every comparison with NaN is false. */
  predicate ConvertDisabled(page: Page, resources: FarmResources) {
    AtMost(page.cropAmount, 0) || Greater(page.cropAmount, resources.crops)
  }

  predicate BuySeedsDisabled(page: Page) {
    AtMost(page.seedAmount, 0)
  }

  predicate SellDisabled(page: Page, resources: FarmResources) {
    AtMost(page.woolAmount, 0) || Greater(page.woolAmount, resources.wool)
  }

  // ---------------------------------------------------------------------
  // Properties

  /** The lands are loaded exactly when the page gets past the connect
      prompt: the effect and the early return test the same account. */
  lemma LoadsWhenConnected(account: Option<string>, page: Page, loading: bool, lands: seq<LandPlot>)
    ensures LoadsLands(account) <==> !View(account, page, loading, lands).ConnectWallet?
    ensures LoadsLands(account) <==> account.Some? && |account.value| > 0
  {
  }

  /** For a number in the input, each button is enabled exactly when its
      handler sends a request. */
  lemma ButtonsMatchHandlers(page: Page, resources: FarmResources)
    ensures page.cropAmount.Val? ==> (!ConvertDisabled(page, resources) <==> HandleConvertCrops(page, resources).Some?)
    ensures page.seedAmount.Val? ==> (!BuySeedsDisabled(page) <==> HandleBuySeeds(page).Some?)
    ensures page.woolAmount.Val? ==> (!SellDisabled(page, resources) <==> HandleSellWool(page, resources).Some?)
  {
  }

  /** An emptied amount input leaves its button enabled, but submitting
      does nothing. */
  lemma EmptiedInputIsIgnored(page: Page, resources: FarmResources, blank: string)
    requires forall i :: 0 <= i < |blank| ==> IsWhitespace(blank[i])
    ensures var p := SetCropAmount(page, blank);
      !ConvertDisabled(p, resources) && HandleConvertCrops(p, resources).None?
    ensures var p := SetSeedAmount(page, blank); !BuySeedsDisabled(p) && HandleBuySeeds(p).None?
    ensures var p := SetWoolAmount(page, blank); !SellDisabled(p, resources) && HandleSellWool(p, resources).None?
  {
    ParseBlank(blank, Unspecified);
  }

  /** Typing an integer, even followed by a fraction such as ".5", stores
      that integer; then the request carries it whenever the guard lets it
      through. */
  lemma TypedAmountIsSent(page: Page, resources: FarmResources, n: int, fraction: string)
    requires fraction == [] || fraction[0] == '.'
    ensures SetCropAmount(page, IntToString(n) + fraction).cropAmount == Val(n)
    ensures 0 < n <= resources.crops ==>
      HandleConvertCrops(SetCropAmount(page, IntToString(n) + fraction), resources) == Some(ConvertCropsToSeeds(n))
    ensures n > 0 ==> HandleBuySeeds(SetSeedAmount(page, IntToString(n) + fraction)) == Some(BuySeeds(n))
    ensures 0 < n <= resources.wool ==>
      HandleSellWool(SetWoolAmount(page, IntToString(n) + fraction), resources) == Some(SellWool(n))
  {
    ParseIntToString(n, fraction);
  }

  /** A name made only of whitespace buys no land plot and is kept; any other
      name is sent untrimmed and then cleared, so an immediate second
      submit sends nothing. */
  lemma BuyLandNeedsName(page: Page)
    ensures HandleBuyLand(page).0.None? <==> forall i :: 0 <= i < |page.landName| ==> IsWhitespace(page.landName[i])
    ensures HandleBuyLand(HandleBuyLand(page).1).0.Some? ==> HandleBuyLand(page).0.None?
  {
    TrimEmptyIff(page.landName);
    TrimEmptyIff("");
  }

  /** The initial amounts of 1 can be sent as soon as the player owns a
      crop or a unit of wool; buying a seed needs nothing. */
  lemma InitialAmounts(resources: FarmResources)
    ensures HandleBuySeeds(InitialPage) == Some(BuySeeds(1))
    ensures HandleConvertCrops(InitialPage, resources).Some? <==> resources.crops >= 1
    ensures HandleSellWool(InitialPage, resources).Some? <==> resources.wool >= 1
  {
  }
}
