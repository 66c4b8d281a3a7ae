/** `/api/menu`: looking up one menu item or listing a filtered page of them (`GET`),
    and creating a menu item (`POST`). */
module MenuRoute {
  import opened Api
  import opened Json
  import opened Text
  import opened Seqs
  import opened Schema
  import opened Query
  import opened Db

  /** The page size when the request names none. */
  const DEFAULT_LIMIT: int := 100

  /** The query string of `GET /api/menu`; `category` and `search` are "" when absent,
      `limit` and `offset` are None when absent. */
  datatype ListParams = ListParams(
    id: Param,
    category: string,
    search: string,
    limit: Option<int>,
    offset: Option<int>)

  /** A `GET` answers with one row when an id is given, with a page of rows otherwise. */
  datatype MenuAnswer = Single(item: MenuItem) | Listing(items: seq<MenuItem>)

  /** The `WHERE` conditions the listing can push. */
  datatype Condition = CategoryIs(category: string) | NameOrDescriptionLike(term: string)

  /** `name LIKE %term% OR description LIKE %term%`; a NULL description never matches. */
  predicate MatchesTerm(m: MenuItem, term: string)
  {
    Contains(m.name, term) || (m.description.Some? && Contains(m.description.value, term))
  }

  predicate Holds(c: Condition, m: MenuItem)
  {
    match c
    case CategoryIs(category) => m.category == category
    case NameOrDescriptionLike(term) => MatchesTerm(m, term)
  }

  /** `and(...conditions)`. */
  predicate AllHold(conditions: seq<Condition>, m: MenuItem)
  {
    forall k :: 0 <= k < |conditions| ==> Holds(conditions[k], m)
  }

  /** The rows a listing selects, stated directly: the category filter when a category
      is given, AND the search filter when a term is given. */
  predicate Selected(category: string, search: string, m: MenuItem)
  {
    (category == "" || m.category == category) && (search == "" || MatchesTerm(m, search))
  }

  function Selection(menu: seq<MenuItem>, category: string, search: string): seq<MenuItem>
  {
    Filter(menu, (m: MenuItem) => Selected(category, search, m))
  }

  /** The listing the handler returns for an accepted category. */
  function ListingOf(menu: seq<MenuItem>, p: ListParams): seq<MenuItem>
  {
    Page(Selection(menu, p.category, p.search), EffectiveLimit(p.limit, DEFAULT_LIMIT), EffectiveOffset(p.offset))
  }

  /** The conditions the handler pushes, one per filter given, in that order. */
  function PushedConditions(category: string, search: string): seq<Condition>
  {
    (if category != "" then [CategoryIs(category)] else [])
    + (if search != "" then [NameOrDescriptionLike(search)] else [])
  }

  /** The pushed conditions all hold exactly on the selected rows. */
  lemma PushedConditionsSelect(category: string, search: string, m: MenuItem)
    ensures AllHold(PushedConditions(category, search), m) <==> Selected(category, search, m)
  {
    var conditions := PushedConditions(category, search);
    if category != "" && search != "" {
      assert conditions == [CategoryIs(category), NameOrDescriptionLike(search)];
      assert Holds(conditions[0], m) && Holds(conditions[1], m) ==> AllHold(conditions, m);
    } else if category != "" {
      assert conditions == [CategoryIs(category)];
      assert Holds(conditions[0], m) ==> AllHold(conditions, m);
    } else if search != "" {
      assert conditions == [NameOrDescriptionLike(search)];
      assert Holds(conditions[0], m) ==> AllHold(conditions, m);
    }
  }

  /** `GET /api/menu`. An id, when given, is looked up and nothing else is consulted;
      otherwise the category is checked against the whitelist and a page of the
      filtered rows is returned. */
  method Get(menu: seq<MenuItem>, p: ListParams) returns (r: Result<MenuAnswer>)
    ensures p.id.Malformed? ==> r == Err(InvalidId)
    ensures p.id.Given? ==>
      r == match FindMenuItem(menu, p.id.n) case Some(row) => Ok(Single(row)) case None => Err(NotFound)
    ensures p.id.Missing? && p.category != "" && p.category !in VALID_CATEGORIES ==> r == Err(InvalidCategory)
    ensures p.id.Missing? && (p.category == "" || p.category in VALID_CATEGORIES) ==>
      r == Ok(Listing(ListingOf(menu, p)))
  {
    var limit := EffectiveLimit(p.limit, DEFAULT_LIMIT);
    var offset := EffectiveOffset(p.offset);

    if !p.id.Missing? {
      if p.id.Malformed? {
        return Err(InvalidId);
      }
      var item := FindMenuItem(menu, p.id.n);
      if item.None? {
        return Err(NotFound);
      }
      return Ok(Single(item.value));
    }

    var conditions: seq<Condition> := [];
    if p.category != "" {
      if p.category !in VALID_CATEGORIES {
        return Err(InvalidCategory);
      }
      conditions := conditions + [CategoryIs(p.category)];
    }
    if p.search != "" {
      conditions := conditions + [NameOrDescriptionLike(p.search)];
    }
    assert conditions == PushedConditions(p.category, p.search);

    var rows := menu;
    if |conditions| > 0 {
      rows := Filter(menu, (m: MenuItem) => AllHold(conditions, m));
    }
    forall k | 0 <= k < |menu|
      ensures AllHold(conditions, menu[k]) == Selected(p.category, p.search, menu[k])
    {
      PushedConditionsSelect(p.category, p.search, menu[k]);
    }
    FilterCongruent(menu, (m: MenuItem) => AllHold(conditions, m), (m: MenuItem) => Selected(p.category, p.search, m));
    if |conditions| == 0 {
      FilterKeepsAll(menu, (m: MenuItem) => Selected(p.category, p.search, m));
    }
    return Ok(Listing(Page(rows, limit, offset)));
  }

  /** Every row listed is a menu row that passes both filters, and a non-negative
      effective limit, which never exceeds 100, bounds how many are listed. */
  lemma ListingSound(menu: seq<MenuItem>, p: ListParams)
    ensures var items := ListingOf(menu, p);
      && EffectiveLimit(p.limit, DEFAULT_LIMIT) <= MAX_LIMIT
      && (EffectiveLimit(p.limit, DEFAULT_LIMIT) >= 0 ==> |items| <= EffectiveLimit(p.limit, DEFAULT_LIMIT))
      && forall k :: 0 <= k < |items| ==>
        && items[k] in menu
        && (p.category != "" ==> items[k].category == p.category)
        && (p.search != "" ==> MatchesTerm(items[k], p.search))
  {
    var selection := Selection(menu, p.category, p.search);
    var items := ListingOf(menu, p);
    var start := PageStart(|selection|, EffectiveOffset(p.offset));
    forall k | 0 <= k < |items|
      ensures items[k] in menu && Selected(p.category, p.search, items[k])
    {
      assert items[k] == selection[start + k];
      assert selection[start + k] in selection;
    }
  }

  /** With no offset and a limit the selection fits in, every selected row is listed,
      in menu order. */
  lemma ListingComplete(menu: seq<MenuItem>, p: ListParams)
    requires p.offset.None? || p.offset.value <= 0
    requires |Selection(menu, p.category, p.search)| <= EffectiveLimit(p.limit, DEFAULT_LIMIT)
    ensures ListingOf(menu, p) == Selection(menu, p.category, p.search)
    ensures IsSubsequence(ListingOf(menu, p), menu)
  {
    FilterIsSubsequence(menu, (m: MenuItem) => Selected(p.category, p.search, m));
  }

  /** `Math.min` puts no lower bound on the limit, and the store reads a negative
      `LIMIT` as no limit: such a request lists every selected row past the offset. */
  lemma NegativeLimitIsUnbounded(menu: seq<MenuItem>, p: ListParams)
    requires p.limit.Some? && p.limit.value < 0
    ensures var selection := Selection(menu, p.category, p.search);
      ListingOf(menu, p) == selection[PageStart(|selection|, EffectiveOffset(p.offset))..]
  {
  }

  /** With no filter at all, the listing is the first page of the whole menu. */
  lemma NoFilterListsMenu(menu: seq<MenuItem>, p: ListParams)
    requires p.category == "" && p.search == ""
    ensures ListingOf(menu, p) == Page(menu, EffectiveLimit(p.limit, DEFAULT_LIMIT), EffectiveOffset(p.offset))
  {
    FilterKeepsAll(menu, (m: MenuItem) => Selected(p.category, p.search, m));
  }

  // ---------------------------------------------------------------------------
  // POST /api/menu
  // ---------------------------------------------------------------------------

  /** The body of `POST /api/menu`; a string field is None when absent or null,
      `available` is None when absent and otherwise its truth value, and `price` is
      the field as sent. */
  datatype CreateRequest = CreateRequest(
    name: Option<string>,
    description: Option<string>,
    price: Field,
    category: Option<string>,
    imageUrl: Option<string>,
    available: Option<bool>)

  /** `!s || s.trim() === ''`. */
  predicate MissingText(s: Option<string>)
  {
    s.None? || Trim(s.value) == ""
  }

  /** The accepted categories carry no surrounding whitespace. */
  lemma CategoryIsTrimmed(category: string)
    requires category in VALID_CATEGORIES
    ensures Trim(category) == category && category != ""
  {
    if category == VALID_CATEGORIES[0] {
      assert category[0] == 's' && category[|category| - 1] == 's';
    } else if category == VALID_CATEGORIES[1] {
      assert category[0] == 'm' && category[|category| - 1] == 's';
    } else if category == VALID_CATEGORIES[2] {
      assert category[0] == 'b' && category[|category| - 1] == 's';
    } else {
      assert category == VALID_CATEGORIES[3];
      assert category[0] == 'd' && category[|category| - 1] == 's';
    }
    TrimOfTrimmed(category);
  }

  /** `price === undefined || price === null`: only these two count as a missing price;
      any other value, "" included, goes on to the `parseFloat` check. */
  predicate PriceAbsent(f: Field)
  {
    f.Undefined? || f.Null?
  }

  /** `parseFloat(price)` is a number greater than 0. */
  predicate ValidPrice(f: Field)
  {
    ParsedFloat(f).Some? && ParsedFloat(f).value > 0
  }

  /** The checks of the handler, in source order. */
  function CreateError(req: CreateRequest): (r: Option<ErrorCode>)
    ensures r.None? <==>
      && !MissingText(req.name)
      && ValidPrice(req.price)
      && req.category.Some? && req.category.value in VALID_CATEGORIES
    ensures r == Some(MissingName) <==> MissingText(req.name)
    ensures r == Some(MissingPrice) <==> !MissingText(req.name) && PriceAbsent(req.price)
    ensures r == Some(MissingCategory) <==>
      !MissingText(req.name) && !PriceAbsent(req.price) && MissingText(req.category)
    ensures r == Some(InvalidPrice) <==>
      && !MissingText(req.name) && !PriceAbsent(req.price) && !MissingText(req.category)
      && !ValidPrice(req.price)
    ensures r == Some(InvalidCategory) <==>
      && !MissingText(req.name) && !MissingText(req.category)
      && ValidPrice(req.price)
      && req.category.value !in VALID_CATEGORIES
  {
    ValidCategoryIsPresent(req.category);
    if MissingText(req.name) then Some(MissingName)
    else if PriceAbsent(req.price) then Some(MissingPrice)
    else if MissingText(req.category) then Some(MissingCategory)
    else if !ValidPrice(req.price) then Some(InvalidPrice)
    else if req.category.value !in VALID_CATEGORIES then Some(InvalidCategory)
    else None
  }

  /** A whitelisted category passes the presence check. */
  lemma ValidCategoryIsPresent(category: Option<string>)
    ensures category.Some? && category.value in VALID_CATEGORIES ==> !MissingText(category)
  {
    if category.Some? && category.value in VALID_CATEGORIES {
      CategoryIsTrimmed(category.value);
    }
  }

  /** Create a menu item; a rejected request writes nothing. */
  method Post(db: Database, req: CreateRequest, now: Timestamp) returns (r: Result<MenuItem>)
    requires db.Valid()
    modifies db`menuItems, db`nextMenuItemId
    ensures db.Valid()
    ensures CreateError(req).Some? ==>
      && r == Err(CreateError(req).value)
      && db.menuItems == old(db.menuItems) && db.nextMenuItemId == old(db.nextMenuItemId)
    ensures CreateError(req).None? ==>
      && r.Ok?
      && db.menuItems == old(db.menuItems) + [r.value]
      && r.value.id == old(db.nextMenuItemId)
      && db.nextMenuItemId == old(db.nextMenuItemId) + 1
      && r.value.name == Trim(req.name.value)
      && r.value.price == ParsedFloat(req.price).value
      && r.value.category == req.category.value
      && r.value.available == (if req.available.Some? then req.available.value else true)
      && r.value.description == (if req.description.Some? then Some(Trim(req.description.value)) else None)
      && r.value.imageUrl ==
        (if req.imageUrl.Some? && Trim(req.imageUrl.value) != "" then Some(Trim(req.imageUrl.value)) else None)
      && r.value.createdAt == now
  {
    var err := CreateError(req);
    if err.Some? {
      return Err(err.value);
    }
    CategoryIsTrimmed(req.category.value);

    var data := MenuItem(0, Trim(req.name.value), None, ParsedFloat(req.price).value, Trim(req.category.value), None,
      if req.available.Some? then req.available.value else true, now);
    if req.description.Some? {
      data := data.(description := Some(Trim(req.description.value)));
    }
    if req.imageUrl.Some? && Trim(req.imageUrl.value) != "" {
      data := data.(imageUrl := Some(Trim(req.imageUrl.value)));
    }
    var row := db.InsertMenuItem(data);
    return Ok(row);
  }
}
