/**
 * The inventory screen: the colour band of an item's stock bar, the bar's
 * width, the summary cards and the search/category/status filter.
 */
module Inventory {
  import opened Wrappers
  import opened Seqs
  import opened JsText
  import opened Percentages

  datatype ItemCategory =
    | Stationery | Books | Electronics | Furniture | Sports | Laboratory | Cleaning | Medical

  datatype StockStatus = InStock | LowStock | OutOfStock | Overstocked

  datatype InventoryItem = InventoryItem(
    id: string,
    name: string,
    category: ItemCategory,
    sku: string,
    currentStock: int,
    minStock: int,
    maxStock: int,
    unitPrice: int,
    totalValue: int,
    supplier: string,
    location: string,
    lastRestocked: string,
    status: StockStatus,
    unit: string,
    description: Option<string>)

  /** `getStockColorClass`: the first band whose upper bound the percentage does not exceed. */
  function StockColorClass(stockPercentage: Percent): (r: string)
    ensures r in ["bg-red-500", "bg-yellow-500", "bg-green-500", "bg-blue-500"]
  {
    if AtMost(stockPercentage, 25) then "bg-red-500"
    else if AtMost(stockPercentage, 50) then "bg-yellow-500"
    else if AtMost(stockPercentage, 85) then "bg-green-500"
    else "bg-blue-500"
  }

  /** `(item.currentStock / item.maxStock) * 100`. */
  function StockPercentage(item: InventoryItem): Percent {
    PercentOf(item.currentStock, item.maxStock)
  }

  /** The bands in the order red, yellow, green, blue. */
  function BandRank(colorClass: string): int {
    if colorClass == "bg-red-500" then 0
    else if colorClass == "bg-yellow-500" then 1
    else if colorClass == "bg-green-500" then 2
    else 3
  }

  /** The upper bound of a band, as a percentage; blue has none. */
  function BandBound(rank: int): int {
    if rank == 0 then 25 else if rank == 1 then 50 else 85
  }

  /**
   * With a positive maximum, the band is decided by cross-multiplication:
   * the stock is within the band's bound and above the bound of the band below.
   */
  lemma StockBands(currentStock: int, maxStock: int)
    requires maxStock >= 1
    ensures var k := BandRank(StockColorClass(PercentOf(currentStock, maxStock)));
      0 <= k <= 3 &&
      (k < 3 ==> 100 * currentStock <= BandBound(k) * maxStock) &&
      (k > 0 ==> 100 * currentStock > BandBound(k - 1) * maxStock)
  {
    forall t | t in [25, 50, 85]
      ensures AtMost(PercentOf(currentStock, maxStock), t) <==> 100 * currentStock <= t * maxStock
    {
      AtMostCrossMultiply(currentStock, maxStock, t);
    }
  }

  /** More stock never moves the bar to a lower band. */
  lemma StockBandMonotone(stock1: int, stock2: int, maxStock: int)
    requires stock1 <= stock2 && maxStock >= 1
    ensures BandRank(StockColorClass(PercentOf(stock1, maxStock))) <=
            BandRank(StockColorClass(PercentOf(stock2, maxStock)))
  {
    StockBands(stock1, maxStock);
    StockBands(stock2, maxStock);
  }

  /** An empty shelf is red and a full one blue. */
  lemma EmptyIsRedFullIsBlue(maxStock: int)
    requires maxStock >= 1
    ensures StockColorClass(PercentOf(0, maxStock)) == "bg-red-500"
    ensures StockColorClass(PercentOf(maxStock, maxStock)) == "bg-blue-500"
  {
    AtMostCrossMultiply(0, maxStock, 25);
    AtMostCrossMultiply(maxStock, maxStock, 85);
  }

  /** `Math.min(stockPercentage, 100)`, the bar's width. */
  function BarWidth(item: InventoryItem): (w: Percent)
    ensures StockPercentage(item).NotANumber? <==> w.NotANumber?
    ensures !w.NotANumber? ==> AtMost(w, 100)
  {
    CapAt100(StockPercentage(item))
  }

  /** Within the maximum, the bar is the stock percentage; over it, exactly full. */
  lemma BarWidthOfStock(item: InventoryItem)
    requires item.maxStock >= 1
    ensures item.currentStock <= item.maxStock ==> BarWidth(item) == StockPercentage(item)
    ensures item.currentStock > item.maxStock ==> BarWidth(item) == Ratio(100, 1)
  {
    AtMostCrossMultiply(item.currentStock, item.maxStock, 100);
  }

  predicate IsLowOrOut(item: InventoryItem) {
    item.status == LowStock || item.status == OutOfStock
  }

  predicate IsOut(item: InventoryItem) {
    item.status == OutOfStock
  }

  /** `.reduce((sum, item) => sum + item.totalValue, 0)`. */
  function SumValues(items: seq<InventoryItem>): int
    decreases |items|
  {
    if |items| == 0 then 0 else SumValues(items[..|items| - 1]) + items[|items| - 1].totalValue
  }

  datatype InventorySummary = InventorySummary(totalItems: nat, totalValue: int, lowStockItems: nat, outOfStockItems: nat)

  /** The summary cards. */
  function Summarize(items: seq<InventoryItem>): (s: InventorySummary)
    ensures s.totalItems == |items|
    ensures s.lowStockItems == Count(items, IsLowOrOut) && s.outOfStockItems == Count(items, IsOut)
  {
    InventorySummary(|items|, SumValues(items), Count(items, IsLowOrOut), Count(items, IsOut))
  }

  /** The low-stock card counts the out-of-stock items too, so it is never the smaller. */
  lemma OutOfStockWithinLowStock(items: seq<InventoryItem>)
    ensures Summarize(items).outOfStockItems <= Summarize(items).lowStockItems <= Summarize(items).totalItems
  {
    CountMonotone(items, IsOut, IsLowOrOut);
  }

  /** Items of non-negative value add up to a non-negative total that bounds each of them. */
  lemma {:induction false} TotalValueBoundsEachItem(items: seq<InventoryItem>)
    requires forall i :: 0 <= i < |items| ==> items[i].totalValue >= 0
    ensures Summarize(items).totalValue >= 0
    ensures forall i :: 0 <= i < |items| ==> items[i].totalValue <= Summarize(items).totalValue
    decreases |items|
  {
    if |items| > 0 {
      TotalValueBoundsEachItem(items[..|items| - 1]);
    }
  }

  /** The search of `filteredItems`: the name, SKU or supplier contains the term, ignoring ASCII case. */
  predicate MatchesSearch(item: InventoryItem, searchTerm: string) {
    var t := ToLower(searchTerm);
    Includes(ToLower(item.name), t) || Includes(ToLower(item.sku), t) || Includes(ToLower(item.supplier), t)
  }

  /** The three conditions of `filteredItems`; `None` is the `'all'` choice. */
  predicate Matches(item: InventoryItem, searchTerm: string,
                    categoryFilter: Option<ItemCategory>, statusFilter: Option<StockStatus>) {
    MatchesSearch(item, searchTerm) &&
    (categoryFilter.None? || item.category == categoryFilter.value) &&
    (statusFilter.None? || item.status == statusFilter.value)
  }

  function MatchesFilters(searchTerm: string, categoryFilter: Option<ItemCategory>,
                          statusFilter: Option<StockStatus>): InventoryItem -> bool {
    (item: InventoryItem) => Matches(item, searchTerm, categoryFilter, statusFilter)
  }

  /** `filteredItems`: the matching items, in order. */
  function FilteredItems(items: seq<InventoryItem>, searchTerm: string,
                         categoryFilter: Option<ItemCategory>, statusFilter: Option<StockStatus>)
    : (r: seq<InventoryItem>)
    ensures IsSubsequence(r, items)
    ensures forall i :: 0 <= i < |r| ==> Matches(r[i], searchTerm, categoryFilter, statusFilter)
    ensures forall i :: 0 <= i < |items| && Matches(items[i], searchTerm, categoryFilter, statusFilter) ==>
              items[i] in r
  {
    FilterIsSubsequence(items, MatchesFilters(searchTerm, categoryFilter, statusFilter));
    Filter(items, MatchesFilters(searchTerm, categoryFilter, statusFilter))
  }

  /** With both selects on "all" and an empty search every item is listed, in order. */
  lemma NoFilterListsAll(items: seq<InventoryItem>)
    ensures FilteredItems(items, "", None, None) == items
  {
    forall i | 0 <= i < |items| ensures MatchesFilters("", None, None)(items[i]) {
      EmptyIncluded(ToLower(items[i].name));
    }
    FilterAll(items, MatchesFilters("", None, None));
  }
}
