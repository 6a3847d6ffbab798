/**
 * Walking a list page by page while items are being inserted: the page arithmetic, the trimming of
 * one extra row, the merge by id, and what the walk is sure to have seen.
 */
module Paging {
  datatype Item = Item(id: nat, value: int)

  datatype Page = Page(items: seq<Item>, hasMore: bool)

  const DEFAULT_PER_PAGE := 20
  const MAX_PER_PAGE := 100
  const MAX_INT32 := 0x7FFF_FFFF

  function Min(a: int, b: int): int { if a < b then a else b }

  // ---- One page ----

  function Normalized(page: int, perPage: int): (int, int)
  {
    (if page < 1 then 1 else page,
     if perPage < 1 then DEFAULT_PER_PAGE else if perPage > MAX_PER_PAGE then MAX_PER_PAGE else perPage)
  }

  /** Pages count from 1, and a page has 20 items if no sensible number is asked for, and at most 100. */
  lemma NormalizedIs(page: int, perPage: int)
    ensures var (p, limit) := Normalized(page, perPage);
            && (page >= 1 ==> p == page) && (page < 1 ==> p == 1)
            && (1 <= perPage <= 100 ==> limit == perPage)
            && (perPage < 1 ==> limit == 20) && (perPage > 100 ==> limit == 100)
  {
  }

  /** Limit and offset in 32 bits; the product is taken in 64 bits after the page was clamped. */
  function Clamped(page: int, perPage: int): (lo: (int, int))
    ensures 1 <= lo.0 <= MAX_PER_PAGE && 0 <= lo.1 <= MAX_INT32
  {
    var (p, limit) := Normalized(page, perPage);
    var capped := Min(p, MAX_INT32);
    ProductInRange(capped - 1, limit);
    (limit, Min((capped - 1) * limit, MAX_INT32))
  }

  lemma ProductInRange(a: nat, b: nat)
    ensures 0 <= a * b
  {
  }

  function Trimmed(rows: seq<Item>, limit: nat): Page
  {
    if |rows| > limit then Page(rows[..limit], true) else Page(rows, false)
  }

  /** LIMIT limit+1 OFFSET offset, then trimmed. */
  function Fetched(list: seq<Item>, limit: nat, offset: nat): Page
  {
    var from := Min(offset, |list|);
    Trimmed(list[from..Min(from + limit + 1, |list|)], limit)
  }

  lemma FetchedIsSlice(list: seq<Item>, limit: nat, offset: nat)
    ensures var from := Min(offset, |list|);
            && Fetched(list, limit, offset).items == list[from..Min(from + limit, |list|)]
            && (Fetched(list, limit, offset).hasMore <==> offset + limit < |list|)
  {
  }

  /** The clamped offset is the exact one, or both are at least 2^31 - 2. */
  lemma OffsetIsExact(page: int, perPage: int)
    ensures var (p, limit) := Normalized(page, perPage);
            var (l, offset) := Clamped(page, perPage);
            && l == limit && 0 <= (p - 1) * limit
            && (offset == (p - 1) * limit || (offset >= MAX_INT32 - 1 && (p - 1) * limit >= MAX_INT32 - 1))
  {
    var (p, limit) := Normalized(page, perPage);
    TimesMonotone(0, p - 1, limit);
    if p > MAX_INT32 {
      TimesMonotone(MAX_INT32 - 1, p - 1, limit);
      TimesMonotone(MAX_INT32, p - 1, limit);
    }
  }

  /** The offset is the exact one capped to 32 bits, except for one item per page beyond 2^31 - 1 pages. */
  lemma OffsetExactly(page: int, perPage: int)
    ensures var (p, limit) := Normalized(page, perPage);
            var (l, offset) := Clamped(page, perPage);
            offset == Min((p - 1) * limit, 0x7FFF_FFFF) <==> !(limit == 1 && p > 0x7FFF_FFFF)
  {
    var (p, limit) := Normalized(page, perPage);
    if p > MAX_INT32 && limit >= 2 {
      TimesMonotone(2, limit, MAX_INT32 - 1);
      TimesMonotone(MAX_INT32 - 1, p - 1, limit);
    }
  }

  /**
   * What a page of a list is: its slice and whether anything follows. The clamping to 32 bits
   * cannot be told from exact arithmetic on any list of fewer than 2^31 rows.
   */
  lemma PageIsSlice(list: seq<Item>, page: int, perPage: int)
    requires |list| < 0x7FFF_FFFF
    ensures var (p, limit) := Normalized(page, perPage);
            var (l, offset) := Clamped(page, perPage);
            var from := Min((p - 1) * limit, |list|);
            && l == limit && 0 <= from
            && Fetched(list, l, offset).items == list[from..Min(from + limit, |list|)]
            && (Fetched(list, l, offset).hasMore <==> p * limit < |list|)
  {
    var (p, limit) := Normalized(page, perPage);
    var (l, offset) := Clamped(page, perPage);
    OffsetIsExact(page, perPage);
    assert p * limit == (p - 1) * limit + limit;
    hide Fetched, Clamped, Normalized;
    FetchedIsSlice(list, l, offset);
  }

  lemma TimesMonotone(a: int, b: int, k: nat)
    requires a <= b
    ensures a * k <= b * k
    ensures k >= 1 && a >= 0 ==> a * k >= a
  {
    assert (b - a) * k >= 0;
  }

  // ---- The merge ----

  /** The position of an id in a list, or its length. */
  function IndexOf(items: seq<Item>, id: nat): (i: nat)
    ensures i <= |items| && (i < |items| ==> items[i].id == id)
    ensures forall j :: 0 <= j < i ==> items[j].id != id
  {
    if items == [] then 0 else if items[0].id == id then 0 else 1 + IndexOf(items[1..], id)
  }

  /** A map built in order keeps the place of the first entry of a key and the value of the last. */
  function Put(merged: seq<Item>, item: Item): seq<Item>
  {
    var i := IndexOf(merged, item.id);
    if i < |merged| then merged[i := item] else merged + [item]
  }

  function Merged(items: seq<Item>): seq<Item>
  {
    if items == [] then [] else Put(Merged(items[..|items| - 1]), items[|items| - 1])
  }

  function Items(pages: seq<Page>): seq<Item>
  {
    if pages == [] then [] else Items(pages[..|pages| - 1]) + pages[|pages| - 1].items
  }

  function MergePages(pages: seq<Page>): seq<Item>
  {
    Merged(Items(pages))
  }

  predicate Has(items: seq<Item>, id: nat)
  {
    exists i :: 0 <= i < |items| && items[i].id == id
  }

  ghost predicate Distinct(items: seq<Item>)
  {
    forall i, j :: 0 <= i < j < |items| ==> items[i].id != items[j].id
  }

  /** `item` is the last of its id. */
  ghost predicate IsLast(items: seq<Item>, item: Item)
  {
    exists i :: 0 <= i < |items| && items[i] == item && forall j :: i < j < |items| ==> items[j].id != item.id
  }

  /**
   * The merge: each id once, exactly the ids fetched, each with the value fetched last, in the
   * order in which the ids first appeared.
   */
  lemma {:induction false} MergeMeans(items: seq<Item>)
    ensures Distinct(Merged(items))
    ensures forall id :: Has(Merged(items), id) <==> Has(items, id)
    ensures forall m :: m in Merged(items) ==> IsLast(items, m)
    ensures forall i, j :: 0 <= i < j < |Merged(items)| ==>
              IndexOf(items, Merged(items)[i].id) < IndexOf(items, Merged(items)[j].id)
  {
    if items != [] {
      var init, last := items[..|items| - 1], items[|items| - 1];
      MergeMeans(init);
      PutMeans(init, Merged(init), last);
      assert init + [last] == items;
    }
  }

  lemma IndexOfUnique(items: seq<Item>, id: nat, i: nat)
    requires i <= |items| && (i < |items| ==> items[i].id == id) && forall j :: 0 <= j < i ==> items[j].id != id
    ensures IndexOf(items, id) == i
  {
  }

  lemma IndexOfAppend(items: seq<Item>, last: Item, id: nat)
    ensures IndexOf(items + [last], id) ==
            if IndexOf(items, id) < |items| then IndexOf(items, id) else if last.id == id then |items| else |items| + 1
  {
    var i :=
      if IndexOf(items, id) < |items| then IndexOf(items, id)
      else if last.id == id then |items| else |items| + 1;
    IndexOfUnique(items + [last], id, i);
  }

  lemma PutMeans(items: seq<Item>, merged: seq<Item>, last: Item)
    requires Distinct(merged) && forall id :: Has(merged, id) <==> Has(items, id)
    requires forall m :: m in merged ==> IsLast(items, m)
    requires forall i, j :: 0 <= i < j < |merged| ==> IndexOf(items, merged[i].id) < IndexOf(items, merged[j].id)
    ensures var result, longer := Put(merged, last), items + [last];
            && Distinct(result)
            && (forall id :: Has(result, id) <==> Has(longer, id))
            && (forall m :: m in result ==> IsLast(longer, m))
            && (forall i, j :: 0 <= i < j < |result| ==> IndexOf(longer, result[i].id) < IndexOf(longer, result[j].id))
  {
    var result, longer := Put(merged, last), items + [last];
    forall id
      ensures Has(result, id) <==> Has(longer, id)
    {
      PutHas(merged, last, id);
      AppendHas(items, last, id);
    }
    forall m | m in result
      ensures IsLast(longer, m)
    {
      PutLast(items, merged, last, m);
    }
    forall i, j | 0 <= i < j < |result|
      ensures IndexOf(longer, result[i].id) < IndexOf(longer, result[j].id)
    {
      PutKeepsOrder(items, merged, last, i, j);
    }
    hide Put, IndexOf, IsLast, Has;
  }

  lemma PutKeepsOrder(items: seq<Item>, merged: seq<Item>, last: Item, i: nat, j: nat)
    requires Distinct(merged) && forall id :: Has(merged, id) <==> Has(items, id)
    requires forall i, j :: 0 <= i < j < |merged| ==> IndexOf(items, merged[i].id) < IndexOf(items, merged[j].id)
    requires i < j < |Put(merged, last)|
    ensures var result := Put(merged, last);
            IndexOf(items + [last], result[i].id) < IndexOf(items + [last], result[j].id)
  {
    var result := Put(merged, last);
    IndexOfAppend(items, last, result[i].id);
    IndexOfAppend(items, last, result[j].id);
    assert Has(merged, result[i].id) ==> Has(items, result[i].id);
    HasIndex(merged, result[i].id);
    HasIndex(items, result[i].id);
    HasIndex(merged, result[j].id);
    HasIndex(items, result[j].id);
  }

  lemma HasIndex(items: seq<Item>, id: nat)
    ensures Has(items, id) <==> IndexOf(items, id) < |items|
  {
  }

  lemma AppendHas(items: seq<Item>, last: Item, id: nat)
    ensures Has(items + [last], id) <==> Has(items, id) || id == last.id
  {
    var longer := items + [last];
    assert longer[|items|] == last;
    if i :| 0 <= i < |items| && items[i].id == id {
      assert longer[i].id == id;
    }
  }

  lemma PutHas(merged: seq<Item>, last: Item, id: nat)
    ensures Has(Put(merged, last), id) <==> Has(merged, id) || id == last.id
  {
    var k, result := IndexOf(merged, last.id), Put(merged, last);
    assert result[k] == last;
    if i :| 0 <= i < |merged| && merged[i].id == id {
      assert result[i].id == id;
    }
  }

  lemma PutLast(items: seq<Item>, merged: seq<Item>, last: Item, m: Item)
    requires (forall x :: x in merged ==> IsLast(items, x)) && Distinct(merged) && m in Put(merged, last)
    ensures IsLast(items + [last], m)
  {
    var longer := items + [last];
    if m == last {
      assert longer[|items|] == m;
    } else {
      assert m in merged && m.id != last.id;
      var i :| 0 <= i < |items| && items[i] == m && forall j :: i < j < |items| ==> items[j].id != m.id;
      assert longer[i] == m;
    }
  }

  // ---- The walk ----

  /** From `a` to `b` items were only inserted: every position moves back, none is lost. */
  ghost predicate Grows(a: seq<Item>, b: seq<Item>, to: seq<nat>)
  {
    && |to| == |a|
    && forall i :: 0 <= i < |a| ==> i <= to[i] < |b| && b[to[i]].id == a[i].id
  }

  /** The lists seen at the successive fetches, each grown out of the one before. */
  ghost predicate History(lists: seq<seq<Item>>, moves: seq<seq<nat>>)
  {
    && lists != [] && |moves| == |lists| - 1
    && forall k :: 0 <= k < |moves| ==> Grows(lists[k], lists[k + 1], moves[k])
  }

  /** Pages 1, 2, ... are fetched until one says that nothing follows. */
  ghost predicate Walk(lists: seq<seq<Item>>, pages: seq<Page>, limit: nat)
  {
    && |pages| == |lists| && pages != [] && limit > 0
    && (forall k :: 0 <= k < |pages| ==> pages[k] == Fetched(lists[k], limit, Offset(k, limit)))
    && (forall k :: 0 <= k < |pages| - 1 ==> pages[k].hasMore)
    && !pages[|pages| - 1].hasMore
  }

  function Offset(k: nat, limit: nat): nat
  {
    k * limit
  }

  lemma OffsetStep(k: nat, limit: nat)
    ensures Offset(k + 1, limit) == Offset(k, limit) + limit
  {
  }

  lemma FetchedHas(list: seq<Item>, limit: nat, offset: nat, i: nat)
    requires offset <= i < |list| && i < offset + limit
    ensures Has(Fetched(list, limit, offset).items, list[i].id)
  {
    var items := Fetched(list, limit, offset).items;
    assert items[i - offset] == list[i];
  }

  /** An item at or behind the next offset stays there until the walk comes to it. */
  lemma {:induction false} SeenFrom(lists: seq<seq<Item>>, moves: seq<seq<nat>>, pages: seq<Page>, limit: nat,
                                    k: nat, i: nat)
    requires History(lists, moves) && Walk(lists, pages, limit)
    requires k < |lists| && Offset(k, limit) <= i < |lists[k]|
    ensures exists p :: k <= p < |pages| && Has(pages[p].items, lists[k][i].id)
    decreases |lists| - k
  {
    var page := pages[k];
    OffsetStep(k, limit);
    if i < Offset(k + 1, limit) {
      FetchedHas(lists[k], limit, Offset(k, limit), i);
    } else {
      assert page.hasMore;
      var j := moves[k][i];
      assert Grows(lists[k], lists[k + 1], moves[k]);
      SeenFrom(lists, moves, pages, limit, k + 1, j);
    }
  }

  lemma {:induction false} PageItems(pages: seq<Page>, p: nat, id: nat)
    requires p < |pages| && Has(pages[p].items, id)
    ensures Has(Items(pages), id)
  {
    var init, last := pages[..|pages| - 1], pages[|pages| - 1];
    if p < |pages| - 1 {
      PageItems(init, p, id);
      var i :| 0 <= i < |Items(init)| && Items(init)[i].id == id;
      assert Items(pages)[i].id == id;
    } else {
      var i :| 0 <= i < |last.items| && last.items[i].id == id;
      assert Items(pages)[|Items(init)| + i].id == id;
    }
  }

  /**
   * While items are only inserted between the fetches, the merged pages hold every item that was
   * there at the first fetch, each id once, in the order of first appearance.
   */
  lemma WalkSeesEverything(lists: seq<seq<Item>>, moves: seq<seq<nat>>, pages: seq<Page>, limit: nat)
    requires History(lists, moves) && Walk(lists, pages, limit)
    ensures forall i :: 0 <= i < |lists[0]| ==> Has(MergePages(pages), lists[0][i].id)
    ensures Distinct(MergePages(pages))
    ensures forall m :: m in MergePages(pages) ==> IsLast(Items(pages), m)
  {
    MergeMeans(Items(pages));
    forall i | 0 <= i < |lists[0]|
      ensures Has(MergePages(pages), lists[0][i].id)
    {
      SeenFrom(lists, moves, pages, limit, 0, i);
      var p :| 0 <= p < |pages| && Has(pages[p].items, lists[0][i].id);
      PageItems(pages, p, lists[0][i].id);
    }
  }

  // ---- Without changes ----

  lemma {:induction false} QuietItems(list: seq<Item>, pages: seq<Page>, limit: nat, n: nat)
    requires n <= |pages| && forall k :: 0 <= k < n ==> pages[k] == Fetched(list, limit, Offset(k, limit))
    requires n > 0 ==> Offset(n - 1, limit) <= |list|
    ensures Items(pages[..n]) == list[..Min(Offset(n, limit), |list|)]
  {
    hide Fetched, Offset;
    if n > 0 {
      OffsetStep(n - 1, limit);
      if n > 1 {
        OffsetStep(n - 2, limit);
      }
      QuietItems(list, pages, limit, n - 1);
      FetchedIsSlice(list, limit, Offset(n - 1, limit));
      assert pages[..n][..n - 1] == pages[..n - 1] && pages[..n][n - 1] == pages[n - 1];
    } else {
      NoOffset(limit);
    }
  }

  lemma NoOffset(limit: nat)
    ensures Offset(0, limit) == 0
  {
  }

  lemma {:induction false} MergeOfDistinct(items: seq<Item>)
    requires Distinct(items)
    ensures Merged(items) == items
  {
    if items != [] {
      var init, last := items[..|items| - 1], items[|items| - 1];
      MergeOfDistinct(init);
      IndexOfUnique(init, last.id, |init|);
      assert init + [last] == items;
    }
  }

  lemma MoreFollows(list: seq<Item>, limit: nat, offset: nat)
    ensures Fetched(list, limit, offset).hasMore <==> offset + limit < |list|
  {
  }

  /** With no changes at all the walk returns the list itself. */
  lemma QuietWalk(list: seq<Item>, lists: seq<seq<Item>>, pages: seq<Page>, limit: nat)
    requires Walk(lists, pages, limit) && Distinct(list) && forall k :: 0 <= k < |lists| ==> lists[k] == list
    ensures MergePages(pages) == list
  {
    var n := |pages|;
    OffsetStep(n - 1, limit);
    if n > 1 {
      OffsetStep(n - 2, limit);
      assert pages[n - 2].hasMore;
      MoreFollows(list, limit, Offset(n - 2, limit));
    }
    MoreFollows(list, limit, Offset(n - 1, limit));
    assert pages[n - 1] == Fetched(lists[n - 1], limit, Offset(n - 1, limit));
    QuietItems(list, pages, limit, n);
    assert pages[..n] == pages && list[..|list|] == list;
    MergeOfDistinct(list);
  }
}
