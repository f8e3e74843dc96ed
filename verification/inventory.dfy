/**
 * The inventory page: the base list of records, the query that the search
 * box and the status filter run over it, and the status counts it computes
 * for the filter buttons' badges.
 */
module InventoryPage {
  import opened Seqs
  import opened Text
  import opened InventoryItem

  /**
   * The status filter's options (`FilterOption`). The page renders buttons
   * for `all`, `in-stock` and `low-stock` only; `out-of-stock` is a value of
   * the type that no button selects.
   */
  datatype FilterOption = ShowAll | ShowInStock | ShowLowStock | ShowOutOfStock

  /** The page's base list (`mockInventoryItems`). */
  const MockInventoryItems: seq<InventoryRecord> := [
    InventoryRecord("INV-001", "Glucose Meters", "Diagnostic", 45, 20, "Warehouse A-1", "2023-07-15"),
    InventoryRecord("INV-002", "Insulin Pump", "Therapeutic", 18, 15, "Warehouse B-3", "2023-07-18"),
    InventoryRecord("INV-003", "Blood Pressure Monitors", "Diagnostic", 32, 25, "Warehouse A-2", "2023-07-20"),
    InventoryRecord("INV-004", "Infusion Sets", "Therapeutic", 5, 30, "Warehouse C-1", "2023-07-10"),
    InventoryRecord("INV-005", "Oxygen Concentrator", "Respiratory", 0, 10, "Warehouse D-2", "2023-07-05"),
    InventoryRecord("INV-006", "ECG Monitors", "Diagnostic", 12, 8, "Warehouse B-1", "2023-07-22"),
    InventoryRecord("INV-007", "Surgical Instruments", "Surgical", 84, 50, "Warehouse A-3", "2023-07-17"),
    InventoryRecord("INV-008", "Defibrillators", "Emergency", 7, 5, "Warehouse D-1", "2023-07-21")
  ]

  // ---------------------------------------------------------------------------
  // The query
  // ---------------------------------------------------------------------------

  /** A record matches the search box when the lower-cased query occurs in its lower-cased name, id or category. */
  predicate MatchesSearch(item: InventoryRecord, query: string) {
    var q := Lower(query);
    Contains(Lower(item.name), q) || Contains(Lower(item.id), q) || Contains(Lower(item.category), q)
  }

  function SearchPredicate(query: string): InventoryRecord -> bool {
    item => MatchesSearch(item, query)
  }

  /** The search step: skipped for the empty query (the only falsy string), a filter otherwise. */
  function Search(items: seq<InventoryRecord>, query: string): seq<InventoryRecord> {
    if query == "" then items else Filter(SearchPredicate(query), items)
  }

  /**
   * The status step's predicate, written inline on the page rather than
   * through `GetStatus`; the last `return true` is the `all` option.
   */
  predicate PassesFilter(item: InventoryRecord, option: FilterOption) {
    match option
    case ShowInStock => item.stock >= item.threshold
    case ShowLowStock => item.stock > 0 && item.stock < item.threshold
    case ShowOutOfStock => item.stock == 0
    case ShowAll => true
  }

  function FilterPredicate(option: FilterOption): InventoryRecord -> bool {
    item => PassesFilter(item, option)
  }

  /** The status step: skipped for `all`, a filter otherwise. */
  function ApplyFilter(items: seq<InventoryRecord>, option: FilterOption): seq<InventoryRecord> {
    if option == ShowAll then items else Filter(FilterPredicate(option), items)
  }

  /** What the list shows: the search step, then the status step. */
  function Query(items: seq<InventoryRecord>, query: string, option: FilterOption): seq<InventoryRecord> {
    ApplyFilter(Search(items, query), option)
  }

  /** Both steps' predicates at once. */
  function QueryPredicate(query: string, option: FilterOption): InventoryRecord -> bool {
    item => MatchesSearch(item, query) && PassesFilter(item, option)
  }

  /** Every record matches the empty query, so skipping the search for it changes nothing. */
  lemma SearchGuardRedundant(items: seq<InventoryRecord>, query: string)
    ensures Search(items, query) == Filter(SearchPredicate(query), items)
  {
    if query == "" {
      forall i | 0 <= i < |items|
        ensures SearchPredicate(query)(items[i])
      {
        ContainsEmpty(Lower(items[i].name));
      }
      FilterKeepsAll(SearchPredicate(query), items);
    }
  }

  /** Skipping the status step for `all` changes nothing either. */
  lemma ApplyFilterIsFilter(items: seq<InventoryRecord>, option: FilterOption)
    ensures ApplyFilter(items, option) == Filter(FilterPredicate(option), items)
  {
    if option == ShowAll {
      FilterKeepsAll(FilterPredicate(option), items);
    }
  }

  /** The two steps together are one filter by both predicates. */
  lemma QueryIsFilter(items: seq<InventoryRecord>, query: string, option: FilterOption)
    ensures Query(items, query, option) == Filter(QueryPredicate(query, option), items)
  {
    SearchGuardRedundant(items, query);
    ApplyFilterIsFilter(Search(items, query), option);
    FilterFusion(SearchPredicate(query), FilterPredicate(option), QueryPredicate(query, option), items);
  }

  /**
   * What the list shows, exactly: the records of the base list, in their
   * order, that match the search and pass the status filter, each as often
   * as it occurs in the base list.
   */
  lemma QueryExact(items: seq<InventoryRecord>, query: string, option: FilterOption)
    ensures IsSubsequence(Query(items, query, option), items)
    ensures forall x ::
      multiset(Query(items, query, option))[x] ==
      if MatchesSearch(x, query) && PassesFilter(x, option) then multiset(items)[x] else 0
    ensures forall x ::
      x in Query(items, query, option) <==> x in items && MatchesSearch(x, query) && PassesFilter(x, option)
  {
    QueryIsFilter(items, query, option);
    FilterIsSubsequence(QueryPredicate(query, option), items);
    FilterContents(QueryPredicate(query, option), items);
  }

  /** With an empty search box and `all` selected, the list is the base list. */
  lemma QueryNoOp(items: seq<InventoryRecord>)
    ensures Query(items, "", ShowAll) == items
  {
  }

  /**
   * A query made only of blanks is not trimmed to the empty query: a record
   * with no blank in its name, id or category is hidden by it, whatever
   * status option is selected.
   */
  lemma BlankQueryIsLiteral(items: seq<InventoryRecord>, blanks: string, option: FilterOption, x: InventoryRecord)
    requires blanks != [] && forall i :: 0 <= i < |blanks| ==> blanks[i] == ' '
    requires ' ' !in x.name && ' ' !in x.id && ' ' !in x.category
    ensures x !in Query(items, blanks, option)
  {
    assert Lower(blanks)[0] == ' ';
    MissesQuery(x, blanks, ' ', ' ', ' ');
    QueryExact(items, blanks, option);
  }

  /** Running the query on its own result changes nothing. */
  lemma QueryIdempotent(items: seq<InventoryRecord>, query: string, option: FilterOption)
    ensures Query(Query(items, query, option), query, option) == Query(items, query, option)
  {
    QueryIsFilter(items, query, option);
    QueryIsFilter(Query(items, query, option), query, option);
    FilterIdempotent(QueryPredicate(query, option), items);
  }

  /** The search and the status filter can be applied in either order. */
  lemma SearchAndFilterCommute(items: seq<InventoryRecord>, query: string, option: FilterOption)
    ensures ApplyFilter(Search(items, query), option) == Search(ApplyFilter(items, option), query)
  {
    SearchGuardRedundant(items, query);
    SearchGuardRedundant(ApplyFilter(items, option), query);
    ApplyFilterIsFilter(items, option);
    ApplyFilterIsFilter(Search(items, query), option);
    FilterCommute(SearchPredicate(query), FilterPredicate(option), items);
  }

  /** Queries that lower-case alike show the same records. */
  lemma QueryCaseInsensitive(items: seq<InventoryRecord>, query1: string, query2: string, option: FilterOption)
    requires Lower(query1) == Lower(query2)
    ensures Query(items, query1, option) == Query(items, query2, option)
  {
    QueryIsFilter(items, query1, option);
    QueryIsFilter(items, query2, option);
    FilterCongruent(QueryPredicate(query1, option), QueryPredicate(query2, option), items);
  }

  // ---------------------------------------------------------------------------
  // The page's filter predicates against the card's classifier
  // ---------------------------------------------------------------------------

  /**
   * For non-negative stock the page's `low-stock` and `out-of-stock`
   * predicates agree with `GetStatus`; its `in-stock` predicate agrees except
   * exactly on an empty shelf with a threshold of zero or less, which the
   * page lists as in stock and the card labels out of stock.
   */
  lemma FilterAgreesWithStatus(item: InventoryRecord)
    requires item.stock >= 0
    ensures PassesFilter(item, ShowLowStock) <==> StatusOf(item) == LowStock
    ensures PassesFilter(item, ShowOutOfStock) <==> StatusOf(item) == OutOfStock
    ensures (PassesFilter(item, ShowInStock) <==> StatusOf(item) == InStock) <==>
      !(item.stock == 0 && item.threshold <= 0)
  {
  }

  /**
   * An empty shelf with threshold zero passes both the `in-stock` and the
   * `out-of-stock` predicate: the In Stock badge counts it and the In Stock
   * list shows it, while its card says "Out of Stock".
   */
  lemma ZeroThresholdCountedTwice(item: InventoryRecord)
    requires item.stock == 0 && item.threshold == 0
    ensures PassesFilter(item, ShowInStock) && PassesFilter(item, ShowOutOfStock)
    ensures StatusOf(item) == OutOfStock
  {
  }

  // ---------------------------------------------------------------------------
  // The status counts
  // ---------------------------------------------------------------------------

  datatype InventoryCounts = InventoryCounts(inStock: nat, lowStock: nat, outOfStock: nat)

  /**
   * `getCounts`: the number of base-list records passing each non-`all`
   * status predicate. The page shows `inStock` and `lowStock` as badges on
   * the In Stock and Low buttons; `outOfStock` is computed but not shown.
   */
  function GetCounts(items: seq<InventoryRecord>): InventoryCounts {
    InventoryCounts(
      |Filter(FilterPredicate(ShowInStock), items)|,
      |Filter(FilterPredicate(ShowLowStock), items)|,
      |Filter(FilterPredicate(ShowOutOfStock), items)|)
  }

  /** The records counted both in stock and out of stock: empty shelves whose threshold is zero or less. */
  predicate CountedTwice(item: InventoryRecord) {
    item.stock == 0 && item.threshold <= 0
  }

  /**
   * With non-negative stock, the three counts add up to the number of
   * records plus the number of empty shelves whose threshold is zero or less.
   */
  lemma {:induction false} CountsSum(items: seq<InventoryRecord>)
    requires forall i :: 0 <= i < |items| ==> items[i].stock >= 0
    ensures var c := GetCounts(items);
      c.inStock + c.lowStock + c.outOfStock == |items| + |Filter(CountedTwice, items)|
  {
    if items != [] {
      CountsSum(items[1..]);
    }
  }

  /** When every threshold is positive, and stock non-negative, every record is counted exactly once. */
  lemma CountsSumExact(items: seq<InventoryRecord>)
    requires forall i :: 0 <= i < |items| ==> items[i].stock >= 0 && items[i].threshold > 0
    ensures var c := GetCounts(items);
      c.inStock + c.lowStock + c.outOfStock == |items|
  {
    CountsSum(items);
    FilterContents(CountedTwice, items);
    assert Filter(CountedTwice, items) == [];
  }

  /** The list the page shows, and the counts its badges are drawn from. */
  datatype InventoryView = InventoryView(visible: seq<InventoryRecord>, counts: InventoryCounts)

  function Render(items: seq<InventoryRecord>, query: string, option: FilterOption): InventoryView {
    InventoryView(Query(items, query, option), GetCounts(items))
  }

  /**
   * The counts are totals over the base list: the search box and the
   * selected option never change them, and each is at least the number of
   * visible records that its status predicate would keep.
   */
  lemma CountsAreTotals(items: seq<InventoryRecord>, query: string, option: FilterOption, query': string, option': FilterOption)
    ensures Render(items, query, option).counts == Render(items, query', option').counts
    ensures var view := Render(items, query, option);
      && GetCounts(view.visible).inStock <= view.counts.inStock
      && GetCounts(view.visible).lowStock <= view.counts.lowStock
      && GetCounts(view.visible).outOfStock <= view.counts.outOfStock
  {
    QueryIsFilter(items, query, option);
    var p := QueryPredicate(query, option);
    FilterCommute(p, FilterPredicate(ShowInStock), items);
    FilterCommute(p, FilterPredicate(ShowLowStock), items);
    FilterCommute(p, FilterPredicate(ShowOutOfStock), items);
  }

  // ---------------------------------------------------------------------------
  // The base list
  // ---------------------------------------------------------------------------

  /** The base list's statuses: one low (INV-004), one out (INV-005), the rest in stock. */
  lemma MockStatuses()
    ensures StatusOf(MockInventoryItems[3]) == LowStock
    ensures StatusOf(MockInventoryItems[4]) == OutOfStock
    ensures forall i :: 0 <= i < |MockInventoryItems| && i != 3 && i != 4 ==>
      StatusOf(MockInventoryItems[i]) == InStock
  {
  }

  /**
   * The base list's counts: six in stock, one low, one out (the badges read
   * 6 and 1); the low and out options each keep one record.
   */
  lemma MockCounts()
    ensures GetCounts(MockInventoryItems) == InventoryCounts(6, 1, 1)
    ensures Query(MockInventoryItems, "", ShowLowStock) == [MockInventoryItems[3]]
    ensures Query(MockInventoryItems, "", ShowOutOfStock) == [MockInventoryItems[4]]
  {
  }

  /**
   * A record does not match a query when each of its searched fields lacks,
   * in either case, some character of the lower-cased query.
   */
  lemma MissesQuery(item: InventoryRecord, query: string, inName: char, inId: char, inCategory: char)
    requires inName in Lower(query) && inId in Lower(query) && inCategory in Lower(query)
    requires LacksChar(item.name, inName) && LacksChar(item.id, inId) && LacksChar(item.category, inCategory)
    ensures !MatchesSearch(item, query)
  {
    AbsentAfterLower(item.name, Lower(query), inName);
    AbsentAfterLower(item.id, Lower(query), inId);
    AbsentAfterLower(item.category, Lower(query), inCategory);
  }

  /** The glucose meters match "glucose". */
  lemma GlucoseMeterMatches()
    ensures MatchesSearch(MockInventoryItems[0], "glucose")
  {
    assert Lower("glucose") == "glucose";
    assert "Glucose Meters" == "Glucose" + " Meters";
    LowerAppend("Glucose", " Meters");
    assert Lower("Glucose") == "glucose";
    assert IsPrefix("glucose", Lower("Glucose Meters"));
  }

  /**
   * A search that only the first record of a list matches shows just that
   * record under `all`.
   */
  lemma SoleMatch(items: seq<InventoryRecord>, query: string)
    requires items != [] && MatchesSearch(items[0], query)
    requires forall i :: 1 <= i < |items| ==> !MatchesSearch(items[i], query)
    ensures Query(items, query, ShowAll) == [items[0]]
  {
    var p := SearchPredicate(query);
    SearchGuardRedundant(items, query);
    FilterContents(p, items[1..]);
    assert Filter(p, items[1..]) == [];
    assert Filter(p, items) == [items[0]] + Filter(p, items[1..]);
  }

  /**
   * `SoleMatch` with the misses shown by `MissesQuery`: for each later
   * record, `names[i]`, `ids[i]` and `categories[i]` are characters of the
   * query that its name, id and category lack in both cases. The witnesses
   * at index 0 are not used.
   */
  lemma SoleMatchByMissingChars(items: seq<InventoryRecord>, query: string,
                                names: string, ids: string, categories: string)
    requires |names| == |ids| == |categories| == |items|
    requires items != [] && MatchesSearch(items[0], query)
    requires forall i :: 1 <= i < |items| ==>
      names[i] in Lower(query) && ids[i] in Lower(query) && categories[i] in Lower(query)
    requires forall i :: 1 <= i < |items| ==>
      LacksChar(items[i].name, names[i]) && LacksChar(items[i].id, ids[i]) &&
      LacksChar(items[i].category, categories[i])
    ensures Query(items, query, ShowAll) == [items[0]]
  {
    forall i | 1 <= i < |items|
      ensures !MatchesSearch(items[i], query)
    {
      MissesQuery(items[i], query, names[i], ids[i], categories[i]);
    }
    SoleMatch(items, query);
  }

  /** INV-002 lacks 'g' in its name, 'g' in its id and 'g' in its category, in both cases. */
  lemma MockRecord1LacksChars()
    ensures LacksChar(MockInventoryItems[1].name, 'g')
    ensures LacksChar(MockInventoryItems[1].id, 'g')
    ensures LacksChar(MockInventoryItems[1].category, 'g')
  {
  }

  /**
   * The name of INV-003, "Blood Pressure Monitors", lacks 'g' in both cases. This is the first
   * fact of `MockRecord2LacksChars`, proved on its own to keep that proof small.
   */
  lemma MockRecord2NameLacksChar()
    ensures LacksChar(MockInventoryItems[2].name, 'g')
  {
  }

  /** INV-003 lacks 'g' in its name, 'g' in its id and 'l' in its category, in both cases. */
  lemma MockRecord2LacksChars()
    ensures LacksChar(MockInventoryItems[2].name, 'g')
    ensures LacksChar(MockInventoryItems[2].id, 'g')
    ensures LacksChar(MockInventoryItems[2].category, 'l')
  {
    MockRecord2NameLacksChar();
  }

  /** INV-004 lacks 'g' in its name, 'g' in its id and 'g' in its category, in both cases. */
  lemma MockRecord3LacksChars()
    ensures LacksChar(MockInventoryItems[3].name, 'g')
    ensures LacksChar(MockInventoryItems[3].id, 'g')
    ensures LacksChar(MockInventoryItems[3].category, 'g')
  {
  }

  /**
   * The name of INV-005, "Oxygen Concentrator", lacks 'l' in both cases. This is the first
   * fact of `MockRecord4LacksChars`, proved on its own to keep that proof small.
   */
  lemma MockRecord4NameLacksChar()
    ensures LacksChar(MockInventoryItems[4].name, 'l')
  {
  }

  /** INV-005 lacks 'l' in its name, 'g' in its id and 'g' in its category, in both cases. */
  lemma MockRecord4LacksChars()
    ensures LacksChar(MockInventoryItems[4].name, 'l')
    ensures LacksChar(MockInventoryItems[4].id, 'g')
    ensures LacksChar(MockInventoryItems[4].category, 'g')
  {
    MockRecord4NameLacksChar();
  }

  /** INV-006 lacks 'l' in its name, 'g' in its id and 'l' in its category, in both cases. */
  lemma MockRecord5LacksChars()
    ensures LacksChar(MockInventoryItems[5].name, 'l')
    ensures LacksChar(MockInventoryItems[5].id, 'g')
    ensures LacksChar(MockInventoryItems[5].category, 'l')
  {
  }

  /** INV-007 lacks 'o' in its name, 'g' in its id and 'o' in its category, in both cases. */
  lemma MockRecord6LacksChars()
    ensures LacksChar(MockInventoryItems[6].name, 'o')
    ensures LacksChar(MockInventoryItems[6].id, 'g')
    ensures LacksChar(MockInventoryItems[6].category, 'o')
  {
  }

  /** INV-008 lacks 'g' in its name, 'g' in its id and 'l' in its category, in both cases. */
  lemma MockRecord7LacksChars()
    ensures LacksChar(MockInventoryItems[7].name, 'g')
    ensures LacksChar(MockInventoryItems[7].id, 'g')
    ensures LacksChar(MockInventoryItems[7].category, 'l')
  {
  }

  /**
   * For each base-list record after the first, a character of "glucose" that
   * its name, its id and its category lack in both cases. The witness strings
   * are indexed like the list; index 0 is a placeholder, because the first
   * record matches and needs no witness.
   */
  lemma MockLacksGlucoseChars()
    ensures forall i :: 1 <= i < |MockInventoryItems| ==>
      LacksChar(MockInventoryItems[i].name, "ggggllog"[i]) &&
      LacksChar(MockInventoryItems[i].id, "gggggggg"[i]) &&
      LacksChar(MockInventoryItems[i].category, "gglgglol"[i])
  {
    var m, names, ids, categories := MockInventoryItems, "ggggllog", "gggggggg", "gglgglol";
    forall i | 1 <= i < |m|
      ensures LacksChar(m[i].name, names[i]) && LacksChar(m[i].id, ids[i]) && LacksChar(m[i].category, categories[i])
    {
      if i == 1 {
        assert names[1] == 'g' && ids[1] == 'g' && categories[1] == 'g';
        MockRecord1LacksChars();
      } else if i == 2 {
        assert names[2] == 'g' && ids[2] == 'g' && categories[2] == 'l';
        MockRecord2LacksChars();
      } else if i == 3 {
        assert names[3] == 'g' && ids[3] == 'g' && categories[3] == 'g';
        MockRecord3LacksChars();
      } else if i == 4 {
        assert names[4] == 'l' && ids[4] == 'g' && categories[4] == 'g';
        MockRecord4LacksChars();
      } else if i == 5 {
        assert names[5] == 'l' && ids[5] == 'g' && categories[5] == 'l';
        MockRecord5LacksChars();
      } else if i == 6 {
        assert names[6] == 'o' && ids[6] == 'g' && categories[6] == 'o';
        MockRecord6LacksChars();
      } else {
        assert names[7] == 'g' && ids[7] == 'g' && categories[7] == 'l';
        MockRecord7LacksChars();
      }
    }
  }

  /** The characters `MockLacksGlucoseChars` names all occur in the lower-cased query "glucose". */
  lemma GlucoseWitnessChars()
    ensures forall i :: 1 <= i < 8 ==>
      "ggggllog"[i] in Lower("glucose") && "gggggggg"[i] in Lower("glucose") && "gglgglol"[i] in Lower("glucose")
  {
    assert Lower("glucose") == "glucose";
  }

  /** Searching the base list for "glucose" shows the glucose meters and nothing else. */
  lemma GlucoseSearch()
    ensures Query(MockInventoryItems, "glucose", ShowAll) == [MockInventoryItems[0]]
  {
    GlucoseMeterMatches();
    MockLacksGlucoseChars();
    GlucoseWitnessChars();
    var names, ids, categories := "ggggllog", "gggggggg", "gglgglol";
    SoleMatchByMissingChars(MockInventoryItems, "glucose", names, ids, categories);
  }

  /** A query of one blank is searched as it stands, not trimmed to the empty query: it hides INV-008. */
  lemma BlankQueryNotTrimmed()
    ensures MockInventoryItems[7] !in Query(MockInventoryItems, " ", ShowAll)
    ensures Query(MockInventoryItems, " ", ShowAll) != Query(MockInventoryItems, "", ShowAll)
  {
    assert Lower(" ") == " ";
    MissesQuery(MockInventoryItems[7], " ", ' ', ' ', ' ');
    QueryExact(MockInventoryItems, " ", ShowAll);
  }
}
