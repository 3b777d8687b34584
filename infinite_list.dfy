/**
 * The paged list behind the infinite-scroll demo: a simulated fetch that
 * returns batch `page` of at most 15 items out of 100, and the component
 * state (`items`, `page`, `hasMore`) that the initial load and every
 * "load more" request update.
 */
module InfiniteList {

  const BatchSize: int := 15
  const TotalItems: int := 100

  datatype Item = Item(id: int, text: string)

  /** `Math.min` on integers. */
  function Min(a: int, b: int): int {
    if a <= b then a else b
  }

  // ---------------------------------------------------------------------
  // Decimal rendering of an id, as a template literal prints a number
  // ---------------------------------------------------------------------

  function DigitChar(d: nat): (c: char)
    requires d < 10
    ensures '0' <= c <= '9'
  {
    ('0' as int + d) as char
  }

  /** The decimal digits of `n`, most significant first, without leading zeros. */
  function NatToString(n: nat): (s: string)
    ensures 1 <= |s|
    ensures forall i :: 0 <= i < |s| ==> '0' <= s[i] <= '9'
    ensures s[0] == '0' ==> n == 0 && |s| == 1
    decreases n
  {
    if n < 10 then [DigitChar(n)] else NatToString(n / 10) + [DigitChar(n % 10)]
  }

  /** `${n}` for an integer `n`. */
  function IntToString(n: int): string {
    if n < 0 then "-" + NatToString(-n) else NatToString(n)
  }

  /** The number a string of decimal digits denotes: the partner of NatToString. */
  function DecimalValue(s: string): nat
    requires forall i :: 0 <= i < |s| ==> '0' <= s[i] <= '9'
  {
    if s == [] then 0
    else 10 * DecimalValue(s[..|s| - 1]) + (s[|s| - 1] as int - '0' as int)
  }

  /** Reading back the rendering of `n` gives `n`: distinct ids get distinct texts. */
  lemma {:induction false} DecimalRoundTrip(n: nat)
    ensures DecimalValue(NatToString(n)) == n
  {
    if n >= 10 {
      var s := NatToString(n);
      assert s[..|s| - 1] == NatToString(n / 10);
      DecimalRoundTrip(n / 10);
    }
  }

  function ItemText(id: int): string {
    "Item #" + IntToString(id)
  }

  function MakeItem(id: int): Item {
    Item(id, ItemText(id))
  }

  // ---------------------------------------------------------------------
  // Batches
  // ---------------------------------------------------------------------

  function StartId(page: int): int {
    (page - 1) * BatchSize + 1
  }

  function EndId(page: int): int {
    Min(StartId(page) + BatchSize - 1, TotalItems)
  }

  /** The items `StartId(page)..EndId(page)`, in order; empty when the range is. */
  function Batch(page: int): seq<Item> {
    var start, end := StartId(page), EndId(page);
    seq(if start <= end then end - start + 1 else 0, k => MakeItem(start + k))
  }

  /** The first `n` items of the whole collection: ids 1..n. */
  function Prefix(n: nat): seq<Item> {
    seq(n, k => MakeItem(k + 1))
  }

  /** The simulated fetch: builds batch `currentPage` one item at a time. */
  method FetchData(currentPage: int) returns (newItems: seq<Item>)
    ensures newItems == Batch(currentPage)
  {
    newItems := [];
    var startId := (currentPage - 1) * BatchSize + 1;
    var endId := Min(startId + BatchSize - 1, TotalItems);
    var i := startId;
    while i <= endId
      invariant startId <= i
      invariant i <= endId + 1 || i == startId
      invariant newItems == seq(i - startId, k => MakeItem(startId + k))
    {
      newItems := newItems + [MakeItem(i)];
      i := i + 1;
    }
  }

  /**
   * For a page of at least 1: ids run from StartId to EndId, consecutive and
   * ascending, between 1 and 100, with at most 15 of them.
   */
  lemma BatchBounds(page: int)
    requires page >= 1
    ensures |Batch(page)| == Min(BatchSize, if TotalItems >= StartId(page) then TotalItems - StartId(page) + 1 else 0)
    ensures |Batch(page)| <= BatchSize
    ensures forall k :: 0 <= k < |Batch(page)| ==>
      && Batch(page)[k].id == StartId(page) + k
      && 1 <= Batch(page)[k].id <= TotalItems
      && Batch(page)[k].text == "Item #" + NatToString(Batch(page)[k].id)
    ensures |Batch(page)| > 0 ==> Batch(page)[|Batch(page)| - 1].id == EndId(page)
  {
    var b := Batch(page);
    forall k | 0 <= k < |b|
      ensures b[k].id == StartId(page) + k && 1 <= b[k].id <= TotalItems
      ensures b[k].text == "Item #" + NatToString(b[k].id)
    {
      assert b[k] == MakeItem(StartId(page) + k);
    }
  }

  /** Page 7 holds ids 91..100; every later page is empty. */
  lemma LastPages(page: int)
    requires page >= 8
    ensures |Batch(7)| == 10 && Batch(7)[0].id == 91 && Batch(7)[9].id == 100
    ensures Batch(page) == []
  {
    assert StartId(7) == 91 && EndId(7) == 100;
    assert Batch(7)[0] == MakeItem(91) && Batch(7)[9] == MakeItem(100);
    assert StartId(page) > TotalItems;
  }

  /** Appending batch `page` to the items before it gives the items up to its end. */
  lemma {:induction false} BatchExtendsPrefix(page: int)
    requires page >= 1 && StartId(page) <= TotalItems
    ensures Prefix(StartId(page) - 1) + Batch(page) == Prefix(EndId(page))
  {
    var a, b := Prefix(StartId(page) - 1), Batch(page);
    forall k | 0 <= k < EndId(page) ensures (a + b)[k] == MakeItem(k + 1) {
      if k < |a| {
        assert (a + b)[k] == a[k];
      } else {
        assert (a + b)[k] == b[k - |a|];
      }
    }
  }

  // ---------------------------------------------------------------------
  // The component state
  // ---------------------------------------------------------------------

  class ListState {
    var items: seq<Item>
    var hasMore: bool
    var page: int

    /**
     * The state after the initial load and any number of further loads:
     * the first min(15 * page, 100) items, in order, and `hasMore` exactly
     * when fewer than 100 are shown.
     */
    ghost predicate Loaded()
      reads this
    {
      && page >= 1
      && |items| == Min(BatchSize * page, TotalItems)
      && items == Prefix(|items|)
      && hasMore == (|items| < TotalItems)
    }

    /** The `useState` initial values. */
    constructor ()
      ensures items == [] && hasMore && page == 1
    {
      items := [];
      hasMore := true;
      page := 1;
    }

    method LoadInitialData()
      modifies this
      ensures items == Batch(1) && page == 1 && hasMore == (|items| < TotalItems)
      ensures Loaded()
    {
      var initialItems := FetchData(1);
      items := initialItems;
      page := 1;
      hasMore := |initialItems| < TotalItems;
      BatchExtendsPrefix(1);
    }

    /**
     * One "load more" request. `items` in the final `hasMore` test is the
     * list as it was before this request appended to it.
     */
    method FetchMoreData()
      modifies this
      ensures old(|items|) >= TotalItems ==>
        !hasMore && items == old(items) && page == old(page)
      ensures old(|items|) < TotalItems ==>
        && items == old(items) + Batch(old(page) + 1)
        && page == old(page) + 1
        && hasMore == (old(|items|) + |Batch(old(page) + 1)| < TotalItems)
      ensures old(Loaded()) ==> Loaded()
    {
      if |items| >= TotalItems {
        hasMore := false;
        return;
      }
      ghost var wasLoaded := Loaded();
      var newItems := FetchData(page + 1);
      var oldLength := |items|;
      items := items + newItems;
      page := page + 1;
      hasMore := oldLength + |newItems| < TotalItems;
      if wasLoaded {
        BatchExtendsPrefix(page);
      }
    }
  }
}
