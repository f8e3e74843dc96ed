/**
 * The deliveries page: the base list of deliveries, the query that the
 * search box and the tabs run over it, and the counts on the tabs.
 */
module DeliveriesPage {
  import opened Seqs
  import opened Text
  import opened DeliveryCard

  /** The tabs above the list (`TabValue`). */
  datatype Tab = AllTab | ActiveTab | DeliveredTab

  /** The page's base list (`mockDeliveries`). */
  const MockDeliveries: seq<DeliveryRecord> := [
    DeliveryRecord("DEL-001", "City Hospital, 123 Medical Ave, New York",
      ["Glucose Meters", "ECG Monitors"], 12, "in-transit", "Jul 25, 2023", "Jul 22, 2023"),
    DeliveryRecord("DEL-002", "Westside Clinic, 456 Health St, Boston",
      ["Blood Pressure Monitors", "Surgical Instruments"], 8, "pending", "Jul 28, 2023", "Jul 21, 2023"),
    DeliveryRecord("DEL-003", "County Medical Center, 789 Care Rd, Chicago",
      ["Insulin Pumps", "Infusion Sets", "Glucose Meters"], 15, "delivered", "Jul 20, 2023", "Jul 18, 2023"),
    DeliveryRecord("DEL-004", "Memorial Hospital, 234 Recovery Ln, Los Angeles",
      ["Defibrillators", "ECG Monitors"], 6, "delayed", "Jul 27, 2023", "Jul 19, 2023"),
    DeliveryRecord("DEL-005", "University Medical, 567 Research Blvd, Seattle",
      ["Oxygen Concentrators", "Blood Pressure Monitors"], 10, "in-transit", "Jul 26, 2023", "Jul 22, 2023"),
    DeliveryRecord("DEL-006", "Community Health, 890 Wellness Way, Denver",
      ["Surgical Instruments", "Glucose Meters"], 14, "delivered", "Jul 21, 2023", "Jul 17, 2023")
  ]

  // ---------------------------------------------------------------------------
  // The query
  // ---------------------------------------------------------------------------

  function ItemMatches(query: string): string -> bool {
    item => Contains(Lower(item), Lower(query))
  }

  /**
   * A delivery matches the search box when the lower-cased query occurs in
   * its lower-cased id or destination, or in some lower-cased item name.
   */
  predicate MatchesSearch(d: DeliveryRecord, query: string) {
    var q := Lower(query);
    Contains(Lower(d.id), q) || Contains(Lower(d.destination), q) || Any(ItemMatches(query), d.items)
  }

  function SearchPredicate(query: string): DeliveryRecord -> bool {
    d => MatchesSearch(d, query)
  }

  /** The search step: skipped for the empty query (the only falsy string), a filter otherwise. */
  function Search(ds: seq<DeliveryRecord>, query: string): seq<DeliveryRecord> {
    if query == "" then ds else Filter(SearchPredicate(query), ds)
  }

  /** The tab step's predicate; the last `return true` is the `all` tab. */
  predicate PassesTab(d: DeliveryRecord, tab: Tab) {
    match tab
    case ActiveTab => d.status == "pending" || d.status == "in-transit" || d.status == "delayed"
    case DeliveredTab => d.status == "delivered"
    case AllTab => true
  }

  function TabPredicate(tab: Tab): DeliveryRecord -> bool {
    d => PassesTab(d, tab)
  }

  /** The tab step: skipped for `all`, a filter otherwise. */
  function ApplyTab(ds: seq<DeliveryRecord>, tab: Tab): seq<DeliveryRecord> {
    if tab == AllTab then ds else Filter(TabPredicate(tab), ds)
  }

  /** What the list shows: the search step, then the tab step. */
  function Query(ds: seq<DeliveryRecord>, query: string, tab: Tab): seq<DeliveryRecord> {
    ApplyTab(Search(ds, query), tab)
  }

  /** Both steps' predicates at once. */
  function QueryPredicate(query: string, tab: Tab): DeliveryRecord -> bool {
    d => MatchesSearch(d, query) && PassesTab(d, tab)
  }

  /**
   * The search, field by field: the id, the destination, or any one item;
   * a delivery with no items is still found by its id or destination.
   */
  lemma SearchFields(d: DeliveryRecord, query: string)
    ensures MatchesSearch(d, query) <==>
      || Contains(Lower(d.id), Lower(query))
      || Contains(Lower(d.destination), Lower(query))
      || exists i :: 0 <= i < |d.items| && Contains(Lower(d.items[i]), Lower(query))
    ensures d.items == [] ==>
      (MatchesSearch(d, query) <==> Contains(Lower(d.id), Lower(query)) || Contains(Lower(d.destination), Lower(query)))
  {
    assert forall i :: 0 <= i < |d.items| ==> (ItemMatches(query)(d.items[i]) <==> Contains(Lower(d.items[i]), Lower(query)));
  }

  /** Every delivery matches the empty query, so skipping the search for it changes nothing. */
  lemma SearchGuardRedundant(ds: seq<DeliveryRecord>, query: string)
    ensures Search(ds, query) == Filter(SearchPredicate(query), ds)
  {
    if query == "" {
      forall i | 0 <= i < |ds|
        ensures SearchPredicate(query)(ds[i])
      {
        ContainsEmpty(Lower(ds[i].id));
      }
      FilterKeepsAll(SearchPredicate(query), ds);
    }
  }

  /** Skipping the tab step for `all` changes nothing either. */
  lemma ApplyTabIsFilter(ds: seq<DeliveryRecord>, tab: Tab)
    ensures ApplyTab(ds, tab) == Filter(TabPredicate(tab), ds)
  {
    if tab == AllTab {
      FilterKeepsAll(TabPredicate(tab), ds);
    }
  }

  /** The two steps together are one filter by both predicates. */
  lemma QueryIsFilter(ds: seq<DeliveryRecord>, query: string, tab: Tab)
    ensures Query(ds, query, tab) == Filter(QueryPredicate(query, tab), ds)
  {
    SearchGuardRedundant(ds, query);
    ApplyTabIsFilter(Search(ds, query), tab);
    FilterFusion(SearchPredicate(query), TabPredicate(tab), QueryPredicate(query, tab), ds);
  }

  /**
   * What the list shows, exactly: the deliveries of the base list, in their
   * order, that match the search and belong on the tab, each as often as it
   * occurs in the base list.
   */
  lemma QueryExact(ds: seq<DeliveryRecord>, query: string, tab: Tab)
    ensures IsSubsequence(Query(ds, query, tab), ds)
    ensures forall x ::
      multiset(Query(ds, query, tab))[x] ==
      if MatchesSearch(x, query) && PassesTab(x, tab) then multiset(ds)[x] else 0
    ensures forall x ::
      x in Query(ds, query, tab) <==> x in ds && MatchesSearch(x, query) && PassesTab(x, tab)
  {
    QueryIsFilter(ds, query, tab);
    FilterIsSubsequence(QueryPredicate(query, tab), ds);
    FilterContents(QueryPredicate(query, tab), ds);
  }

  /** With an empty search box and the `all` tab, the list is the base list. */
  lemma QueryNoOp(ds: seq<DeliveryRecord>)
    ensures Query(ds, "", AllTab) == ds
  {
  }

  /** Running the query on its own result changes nothing. */
  lemma QueryIdempotent(ds: seq<DeliveryRecord>, query: string, tab: Tab)
    ensures Query(Query(ds, query, tab), query, tab) == Query(ds, query, tab)
  {
    QueryIsFilter(ds, query, tab);
    QueryIsFilter(Query(ds, query, tab), query, tab);
    FilterIdempotent(QueryPredicate(query, tab), ds);
  }

  /** The search and the tab can be applied in either order. */
  lemma SearchAndTabCommute(ds: seq<DeliveryRecord>, query: string, tab: Tab)
    ensures ApplyTab(Search(ds, query), tab) == Search(ApplyTab(ds, tab), query)
  {
    SearchGuardRedundant(ds, query);
    SearchGuardRedundant(ApplyTab(ds, tab), query);
    ApplyTabIsFilter(ds, tab);
    ApplyTabIsFilter(Search(ds, query), tab);
    FilterCommute(SearchPredicate(query), TabPredicate(tab), ds);
  }

  /** Queries that lower-case alike show the same deliveries. */
  lemma QueryCaseInsensitive(ds: seq<DeliveryRecord>, query1: string, query2: string, tab: Tab)
    requires Lower(query1) == Lower(query2)
    ensures Query(ds, query1, tab) == Query(ds, query2, tab)
  {
    QueryIsFilter(ds, query1, tab);
    QueryIsFilter(ds, query2, tab);
    forall d | d in ds
      ensures QueryPredicate(query1, tab)(d) == QueryPredicate(query2, tab)(d)
    {
      assert ItemMatches(query1) == ItemMatches(query2) by {
        forall item ensures ItemMatches(query1)(item) == ItemMatches(query2)(item) { }
      }
    }
    FilterCongruent(QueryPredicate(query1, tab), QueryPredicate(query2, tab), ds);
  }

  // ---------------------------------------------------------------------------
  // The tabs
  // ---------------------------------------------------------------------------

  /** `active` keeps the pending, in-transit and delayed deliveries; `delivered` keeps the delivered ones. */
  lemma TabsByStatus(d: DeliveryRecord)
    ensures PassesTab(d, ActiveTab) <==> IsKnownStatus(d.status) && ParseStatus(d.status).value != Delivered
    ensures PassesTab(d, DeliveredTab) <==> ParseStatus(d.status) == Some(Delivered)
    ensures PassesTab(d, AllTab)
  {
  }

  /** Whatever the search, the `active` and `delivered` tabs both show part of the `all` tab, in its order. */
  lemma TabsWithinAll(ds: seq<DeliveryRecord>, query: string, tab: Tab)
    ensures IsSubsequence(Query(ds, query, tab), Query(ds, query, AllTab))
  {
    ApplyTabIsFilter(Search(ds, query), tab);
    FilterIsSubsequence(TabPredicate(tab), Search(ds, query));
  }

  /** No delivery belongs on both the `active` and the `delivered` tab. */
  lemma ActiveNotDelivered(d: DeliveryRecord)
    ensures !(PassesTab(d, ActiveTab) && PassesTab(d, DeliveredTab))
  {
  }

  /** Whatever the search, the `active` and `delivered` tabs never show the same delivery. */
  lemma TabsDisjoint(ds: seq<DeliveryRecord>, query: string)
    ensures forall x :: !(x in Query(ds, query, ActiveTab) && x in Query(ds, query, DeliveredTab))
  {
    var active := Query(ds, query, ActiveTab);
    forall x | x in active
      ensures x !in Query(ds, query, DeliveredTab)
    {
      var i :| 0 <= i < |active| && active[i] == x;
      ActiveNotDelivered(x);
    }
  }

  /**
   * When every status is one of the four, the `active` and `delivered` tabs
   * together show the whole `all` tab, whatever the search: nothing is lost
   * and nothing is shown twice.
   */
  lemma TabsCover(ds: seq<DeliveryRecord>, query: string)
    requires forall d :: d in ds ==> IsKnownStatus(d.status)
    ensures multiset(Query(ds, query, ActiveTab)) + multiset(Query(ds, query, DeliveredTab))
      == multiset(Query(ds, query, AllTab))
  {
    var all := Search(ds, query);
    if query != "" {
      FilterContents(SearchPredicate(query), ds);
    }
    assert forall x :: x in all ==> x in ds;
    FilterSplit(TabPredicate(ActiveTab), TabPredicate(DeliveredTab), all);
  }

  // ---------------------------------------------------------------------------
  // The counts on the tabs
  // ---------------------------------------------------------------------------

  datatype DeliveryCounts = DeliveryCounts(all: nat, active: nat, delivered: nat)

  /** `getCounts`' test for an active delivery: membership in the list of the three active statuses. */
  predicate CountsAsActive(d: DeliveryRecord) {
    d.status in ["pending", "in-transit", "delayed"]
  }

  predicate CountsAsDelivered(d: DeliveryRecord) {
    d.status == "delivered"
  }

  predicate HasUnknownStatus(d: DeliveryRecord) {
    !IsKnownStatus(d.status)
  }

  /** `getCounts`: each tab's count over the base list. */
  function GetCounts(ds: seq<DeliveryRecord>): DeliveryCounts {
    DeliveryCounts(|ds|, |Filter(CountsAsActive, ds)|, |Filter(CountsAsDelivered, ds)|)
  }

  /**
   * Every delivery is counted under exactly one of `active` and `delivered`,
   * unless its status is none of the four: those are counted only under `all`.
   */
  lemma {:induction false} CountsPartition(ds: seq<DeliveryRecord>)
    ensures var c := GetCounts(ds);
      c.active + c.delivered + |Filter(HasUnknownStatus, ds)| == c.all
  {
    if ds != [] {
      CountsPartition(ds[1..]);
    }
  }

  /** When every status is one of the four, `active` and `delivered` add up to `all`. */
  lemma CountsAddUp(ds: seq<DeliveryRecord>)
    requires forall d :: d in ds ==> IsKnownStatus(d.status)
    ensures GetCounts(ds).active + GetCounts(ds).delivered == GetCounts(ds).all
  {
    CountsPartition(ds);
    FilterContents(HasUnknownStatus, ds);
    assert Filter(HasUnknownStatus, ds) == [];
  }

  /** Each tab's count is the length of the list that tab shows for an empty search box. */
  lemma CountsMatchTabs(ds: seq<DeliveryRecord>)
    ensures GetCounts(ds).all == |Query(ds, "", AllTab)|
    ensures GetCounts(ds).active == |Query(ds, "", ActiveTab)|
    ensures GetCounts(ds).delivered == |Query(ds, "", DeliveredTab)|
  {
    FilterCongruent(CountsAsActive, TabPredicate(ActiveTab), ds);
    FilterCongruent(CountsAsDelivered, TabPredicate(DeliveredTab), ds);
  }

  /** What the page shows: the list and the tab counts. */
  datatype DeliveriesView = DeliveriesView(visible: seq<DeliveryRecord>, counts: DeliveryCounts)

  function Render(ds: seq<DeliveryRecord>, query: string, tab: Tab): DeliveriesView {
    DeliveriesView(Query(ds, query, tab), GetCounts(ds))
  }

  /**
   * The tab counts are totals over the base list: the search box and the
   * selected tab never change them, and each is at least the number of
   * visible deliveries that its tab would keep.
   */
  lemma CountsAreTotals(ds: seq<DeliveryRecord>, query: string, tab: Tab, query': string, tab': Tab)
    ensures Render(ds, query, tab).counts == Render(ds, query', tab').counts
    ensures var view := Render(ds, query, tab);
      && GetCounts(view.visible).all <= view.counts.all
      && GetCounts(view.visible).active <= view.counts.active
      && GetCounts(view.visible).delivered <= view.counts.delivered
  {
    QueryIsFilter(ds, query, tab);
    var p := QueryPredicate(query, tab);
    FilterCommute(p, CountsAsActive, ds);
    FilterCommute(p, CountsAsDelivered, ds);
  }

  // ---------------------------------------------------------------------------
  // The base list
  // ---------------------------------------------------------------------------

  /** The base list's tab counts: six in all, four active, two delivered. */
  lemma MockCounts()
    ensures GetCounts(MockDeliveries) == DeliveryCounts(6, 4, 2)
  {
  }

  /**
   * The tabs of a six-delivery list whose statuses run as the base list's
   * do: in transit, pending, delivered, delayed, in transit, delivered.
   */
  lemma TabsOfSix(ds: seq<DeliveryRecord>)
    requires |ds| == 6
    requires ds[0].status == "in-transit" && ds[1].status == "pending" && ds[2].status == "delivered"
    requires ds[3].status == "delayed" && ds[4].status == "in-transit" && ds[5].status == "delivered"
    ensures Query(ds, "", ActiveTab) == [ds[0], ds[1], ds[3], ds[4]]
    ensures Query(ds, "", DeliveredTab) == [ds[2], ds[5]]
  {
    var active, delivered := TabPredicate(ActiveTab), TabPredicate(DeliveredTab);
    assert ds[5..][1..] == [] && ds[4..][1..] == ds[5..] && ds[3..][1..] == ds[4..];
    assert ds[2..][1..] == ds[3..] && ds[1..][1..] == ds[2..];
    assert Filter(active, ds[4..]) == [ds[4]];
    assert Filter(active, ds[3..]) == [ds[3], ds[4]];
    assert Filter(active, ds[1..]) == [ds[1], ds[3], ds[4]];
    assert Filter(delivered, ds[5..]) == [ds[5]];
    assert Filter(delivered, ds[4..]) == [ds[5]];
    assert Filter(delivered, ds[3..]) == [ds[5]];
    assert Filter(delivered, ds[2..]) == [ds[2], ds[5]];
    assert Filter(delivered, ds[1..]) == [ds[2], ds[5]];
  }

  /** With an empty search box the active tab shows DEL-001, 002, 004 and 005. */
  lemma MockActiveTab()
    ensures Query(MockDeliveries, "", ActiveTab) ==
      [MockDeliveries[0], MockDeliveries[1], MockDeliveries[3], MockDeliveries[4]]
  {
    TabsOfSix(MockDeliveries);
  }

  /** With an empty search box the delivered tab shows DEL-003 and DEL-006. */
  lemma MockDeliveredTab()
    ensures Query(MockDeliveries, "", DeliveredTab) == [MockDeliveries[2], MockDeliveries[5]]
  {
    TabsOfSix(MockDeliveries);
  }

  /** One delivery of each status: `active` shows the three that are not delivered. */
  lemma OneOfEachStatus(a: DeliveryRecord, b: DeliveryRecord, c: DeliveryRecord, d: DeliveryRecord)
    requires a.status == "pending" && b.status == "in-transit"
    requires c.status == "delivered" && d.status == "delayed"
    ensures Query([a, b, c, d], "", ActiveTab) == [a, b, d]
    ensures GetCounts([a, b, c, d]) == DeliveryCounts(4, 3, 1)
  {
    var ds := [a, b, c, d];
    assert ds[1..] == [b, c, d] && [b, c, d][1..] == [c, d] && [c, d][1..] == [d] && [d][1..] == [];
    var active := TabPredicate(ActiveTab);
    assert Filter(active, [c, d]) == [d];
    assert Filter(active, ds) == [a, b, d];
    assert Filter(CountsAsActive, [c, d]) == [d];
    assert |Filter(CountsAsActive, ds)| == 3;
    assert Filter(CountsAsDelivered, [c, d]) == [c];
    assert |Filter(CountsAsDelivered, ds)| == 1;
  }
}
