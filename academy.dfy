/**
 * The academy page: with a wallet connected it shows the player's
 * resources and two tabs. "My Grimoires" lists the grimoire cards and has
 * a form to buy a named grimoire; "Arcane Market" has three forms that
 * convert scrolls to spells, buy spells and sell mana. Amount inputs are
 * read with `parseInt`, so an emptied input holds NaN.
 */
module Academy {
  import opened JsRuntime
  import opened Wrappers
  import opened Records

  datatype Tab = GrimoiresTab | MarketTab

  /** The page's own state. */
  datatype Page = Page(grimoireName: string, spellAmount: JsInt, scrollAmount: JsInt,
                       manaAmount: JsInt, activeTab: Tab)

  const InitialPage: Page := Page("", Val(1), Val(1), Val(1), GrimoiresTab)

  /** The calls the page makes into the wizard context. */
  datatype Request =
    | BuyGrimoire(name: string)
    | ConvertScrollsToSpells(amount: int)
    | BuySpells(amount: int)
    | SellMana(amount: int)

  /** An account is truthy when there is one and it is not empty. */
  predicate Connected(account: Option<string>) {
    account.Some? && account.value != ""
  }

  /** The effect on `[account]`: grimoires are loaded for a truthy account. */
  predicate LoadsGrimoires(account: Option<string>) {
    Connected(account)
  }

  /** What the page shows: a connect prompt without an account, otherwise
      the active tab; the grimoires tab shows a loading text, an empty
      notice or one card per grimoire, in order. */
  datatype Screen =
    | ConnectWallet
    | LoadingGrimoires
    | NoGrimoires
    | GrimoireGrid(cards: seq<Grimoire>)
    | ArcaneMarket

  function View(account: Option<string>, page: Page, loading: bool, grimoires: seq<Grimoire>): (r: Screen)
    ensures r.ConnectWallet? <==> !Connected(account)
    ensures r.ArcaneMarket? <==> Connected(account) && page.activeTab.MarketTab?
    ensures r.GrimoireGrid? ==> r.cards == grimoires && |grimoires| > 0 && !loading
    ensures r.NoGrimoires? <==> Connected(account) && page.activeTab.GrimoiresTab? && !loading && |grimoires| == 0
    ensures r.LoadingGrimoires? <==> Connected(account) && page.activeTab.GrimoiresTab? && loading
  {
    if !Connected(account) then ConnectWallet
    else if page.activeTab == MarketTab then ArcaneMarket
    else if loading then LoadingGrimoires
    else if |grimoires| == 0 then NoGrimoires
    else GrimoireGrid(grimoires)
  }

  function SelectTab(page: Page, tab: Tab): (r: Page)
    ensures r == page.(activeTab := tab)
  {
    page.(activeTab := tab)
  }

  function SetGrimoireName(page: Page, text: string): (r: Page)
    ensures r == page.(grimoireName := text)
  {
    page.(grimoireName := text)
  }

  /** `setScrollAmount(parseInt(e.target.value))` and its two siblings. */
  function SetScrollAmount(page: Page, text: string): (r: Page)
    ensures r == page.(scrollAmount := ParseInt(text, Unspecified))
  {
    page.(scrollAmount := ParseInt(text, Unspecified))
  }

  function SetSpellAmount(page: Page, text: string): (r: Page)
    ensures r == page.(spellAmount := ParseInt(text, Unspecified))
  {
    page.(spellAmount := ParseInt(text, Unspecified))
  }

  function SetManaAmount(page: Page, text: string): (r: Page)
    ensures r == page.(manaAmount := ParseInt(text, Unspecified))
  {
    page.(manaAmount := ParseInt(text, Unspecified))
  }

  /** `handleBuyGrimoire`: a name that is not blank is sent as typed, and
      the input is cleared. */
  function HandleBuyGrimoire(page: Page): (r: (Option<Request>, Page))
    ensures r.0.Some? <==> Trim(page.grimoireName) != ""
    ensures r.0.Some? ==> r.0.value == BuyGrimoire(page.grimoireName) && r.1 == page.(grimoireName := "")
    ensures r.0.None? ==> r.1 == page
  {
    if Trim(page.grimoireName) != "" then (Some(BuyGrimoire(page.grimoireName)), page.(grimoireName := ""))
    else (None, page)
  }

  /** `handleConvertScrolls`: `scrollAmount > 0 && scrollAmount <= scrolls`. */
  function HandleConvertScrolls(page: Page, resources: WizardResources): (r: Option<Request>)
    ensures r.Some? <==> Greater(page.scrollAmount, 0) && AtMost(page.scrollAmount, resources.scrolls)
    ensures r.Some? ==> r.value == ConvertScrollsToSpells(page.scrollAmount.v) && 1 <= r.value.amount <= resources.scrolls
  {
    if Greater(page.scrollAmount, 0) && AtMost(page.scrollAmount, resources.scrolls)
    then Some(ConvertScrollsToSpells(page.scrollAmount.v)) else None
  }

  /** `handleBuySpells`: `spellAmount > 0`. */
  function HandleBuySpells(page: Page): (r: Option<Request>)
    ensures r.Some? <==> Greater(page.spellAmount, 0)
    ensures r.Some? ==> r.value == BuySpells(page.spellAmount.v) && r.value.amount >= 1
  {
    if Greater(page.spellAmount, 0) then Some(BuySpells(page.spellAmount.v)) else None
  }

  /** `handleSellMana`: `manaAmount > 0 && manaAmount <= mana`. */
  function HandleSellMana(page: Page, resources: WizardResources): (r: Option<Request>)
    ensures r.Some? <==> Greater(page.manaAmount, 0) && AtMost(page.manaAmount, resources.mana)
    ensures r.Some? ==> r.value == SellMana(page.manaAmount.v) && 1 <= r.value.amount <= resources.mana
  {
    if Greater(page.manaAmount, 0) && AtMost(page.manaAmount, resources.mana)
    then Some(SellMana(page.manaAmount.v)) else None
  }

  /** The `disabled` attributes; every comparison with NaN is false. */
  predicate ConvertDisabled(page: Page, resources: WizardResources) {
    AtMost(page.scrollAmount, 0) || Greater(page.scrollAmount, resources.scrolls)
  }

  predicate BuySpellsDisabled(page: Page) {
    AtMost(page.spellAmount, 0)
  }

  predicate SellDisabled(page: Page, resources: WizardResources) {
    AtMost(page.manaAmount, 0) || Greater(page.manaAmount, resources.mana)
  }

  // ---------------------------------------------------------------------
  // Properties

  /** The grimoires are loaded exactly when the page gets past the connect
      prompt: the effect and the early return test the same account. */
  lemma LoadsWhenConnected(account: Option<string>, page: Page, loading: bool, grimoires: seq<Grimoire>)
    ensures LoadsGrimoires(account) <==> !View(account, page, loading, grimoires).ConnectWallet?
    ensures LoadsGrimoires(account) <==> account.Some? && |account.value| > 0
  {
  }

  /** For a number in the input, each button is enabled exactly when its
      handler sends a request. */
  lemma ButtonsMatchHandlers(page: Page, resources: WizardResources)
    ensures page.scrollAmount.Val? ==> (!ConvertDisabled(page, resources) <==> HandleConvertScrolls(page, resources).Some?)
    ensures page.spellAmount.Val? ==> (!BuySpellsDisabled(page) <==> HandleBuySpells(page).Some?)
    ensures page.manaAmount.Val? ==> (!SellDisabled(page, resources) <==> HandleSellMana(page, resources).Some?)
  {
  }

  /** An emptied amount input leaves its button enabled, but submitting
      does nothing. */
  lemma EmptiedInputIsIgnored(page: Page, resources: WizardResources, blank: string)
    requires forall i :: 0 <= i < |blank| ==> IsWhitespace(blank[i])
    ensures var p := SetScrollAmount(page, blank);
      !ConvertDisabled(p, resources) && HandleConvertScrolls(p, resources).None?
    ensures var p := SetSpellAmount(page, blank); !BuySpellsDisabled(p) && HandleBuySpells(p).None?
    ensures var p := SetManaAmount(page, blank); !SellDisabled(p, resources) && HandleSellMana(p, resources).None?
  {
    ParseBlank(blank, Unspecified);
  }

  /** Typing an integer, even followed by a fraction such as ".5", stores
      that integer; then the request carries it whenever the guard lets it
      through. */
  lemma TypedAmountIsSent(page: Page, resources: WizardResources, n: int, fraction: string)
    requires fraction == [] || fraction[0] == '.'
    ensures SetScrollAmount(page, IntToString(n) + fraction).scrollAmount == Val(n)
    ensures 0 < n <= resources.scrolls ==>
      HandleConvertScrolls(SetScrollAmount(page, IntToString(n) + fraction), resources) == Some(ConvertScrollsToSpells(n))
    ensures n > 0 ==> HandleBuySpells(SetSpellAmount(page, IntToString(n) + fraction)) == Some(BuySpells(n))
    ensures 0 < n <= resources.mana ==>
      HandleSellMana(SetManaAmount(page, IntToString(n) + fraction), resources) == Some(SellMana(n))
  {
    ParseIntToString(n, fraction);
  }

  /** A name made only of whitespace buys nothing and is kept; any other
      name is sent untrimmed and then cleared, so an immediate second
      submit sends nothing. */
  lemma BuyGrimoireNeedsName(page: Page)
    ensures HandleBuyGrimoire(page).0.None? <==> forall i :: 0 <= i < |page.grimoireName| ==> IsWhitespace(page.grimoireName[i])
    ensures HandleBuyGrimoire(HandleBuyGrimoire(page).1).0.Some? ==> HandleBuyGrimoire(page).0.None?
  {
    TrimEmptyIff(page.grimoireName);
    TrimEmptyIff("");
  }

  /** The initial amounts of 1 can be sent as soon as the player owns a
      scroll or a unit of mana; buying a spell needs nothing. */
  lemma InitialAmounts(resources: WizardResources)
    ensures HandleBuySpells(InitialPage) == Some(BuySpells(1))
    ensures HandleConvertScrolls(InitialPage, resources).Some? <==> resources.scrolls >= 1
    ensures HandleSellMana(InitialPage, resources).Some? <==> resources.mana >= 1
  {
  }
}
