/** The menu page's client-side filter: a category tab and a case-insensitive search
    box narrow down the menu the page fetched. */
module HomePage {
  import opened Text
  import opened Seqs

  /** A menu item as the page types it: every text field is a string. */
  datatype MenuCard = MenuCard(
    id: int,
    name: string,
    description: string,
    price: int,
    category: string,
    imageUrl: string,
    available: bool)

  /** The tab that shows every category. */
  const ALL: string := "all"

  /** The lower-cased name or the lower-cased description contains the lower-cased query. */
  predicate MatchesQuery(item: MenuCard, query: string)
  {
    Contains(ToLower(item.name), ToLower(query)) || Contains(ToLower(item.description), ToLower(query))
  }

  /** `filterItems`: the category filter unless the tab is "all", then the search
      filter when the query is non-empty. */
  function FilterItems(items: seq<MenuCard>, selectedCategory: string, searchQuery: string): seq<MenuCard>
  {
    var byCategory :=
      if selectedCategory != ALL then Filter(items, (item: MenuCard) => item.category == selectedCategory)
      else items;
    if searchQuery != "" then Filter(byCategory, (item: MenuCard) => MatchesQuery(item, searchQuery))
    else byCategory
  }

  /** Which items the page shows, stated directly. */
  predicate Shown(item: MenuCard, selectedCategory: string, searchQuery: string)
  {
    (selectedCategory == ALL || item.category == selectedCategory)
    && (searchQuery == "" || MatchesQuery(item, searchQuery))
  }

  /** The two successive filters are one filter by `Shown`. */
  lemma FilterItemsIsShown(items: seq<MenuCard>, selectedCategory: string, searchQuery: string)
    ensures FilterItems(items, selectedCategory, searchQuery)
      == Filter(items, (item: MenuCard) => Shown(item, selectedCategory, searchQuery))
  {
    var shown := (item: MenuCard) => Shown(item, selectedCategory, searchQuery);
    var byCategory := (item: MenuCard) => item.category == selectedCategory;
    var bySearch := (item: MenuCard) => MatchesQuery(item, searchQuery);
    if selectedCategory != ALL && searchQuery != "" {
      FilterFilter(items, byCategory, bySearch, shown);
    } else if selectedCategory != ALL {
      FilterCongruent(items, byCategory, shown);
    } else if searchQuery != "" {
      FilterCongruent(items, bySearch, shown);
    } else {
      FilterKeepsAll(items, shown);
    }
  }

  /** An item is shown exactly when it is on the menu and passes both filters, and the
      page keeps the menu's order. */
  lemma FilterItemsSound(items: seq<MenuCard>, selectedCategory: string, searchQuery: string)
    ensures forall item :: item in FilterItems(items, selectedCategory, searchQuery) <==>
      item in items && Shown(item, selectedCategory, searchQuery)
    ensures IsSubsequence(FilterItems(items, selectedCategory, searchQuery), items)
  {
    FilterItemsIsShown(items, selectedCategory, searchQuery);
    FilterIsSubsequence(items, (item: MenuCard) => Shown(item, selectedCategory, searchQuery));
  }

  /** The "all" tab with an empty query shows the whole menu. */
  lemma ShowAll(items: seq<MenuCard>)
    ensures FilterItems(items, ALL, "") == items
  {
  }

  /** The search ignores the case of ASCII letters in the query. */
  lemma QueryCaseIgnored(items: seq<MenuCard>, selectedCategory: string, searchQuery: string)
    ensures FilterItems(items, selectedCategory, ToLower(searchQuery)) == FilterItems(items, selectedCategory, searchQuery)
  {
    ToLowerIdempotent(searchQuery);
    var byCategory :=
      if selectedCategory != ALL then Filter(items, (item: MenuCard) => item.category == selectedCategory)
      else items;
    FilterCongruent(byCategory, (item: MenuCard) => MatchesQuery(item, ToLower(searchQuery)),
      (item: MenuCard) => MatchesQuery(item, searchQuery));
  }
}
