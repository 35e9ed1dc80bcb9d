/** The `PageSwitch` pagination control. The same logic appears in two
    components (one used by the chart grid, one by the favorites list); both
    are modelled here once. The owner of the state keeps `index`, the start
    offset of the visible window; the control derives its page numbers from
    it and moves it by whole pages. */
module Pager {
  import opened Seqs

  /** A page size: the components use 3 and 4. */
  type PageSize = n: int | n > 0 witness 1

  /** The props of the control: start offset, length of the paged
      collection, and page size. */
  datatype PageSwitch = PageSwitch(index: int, totalItems: nat, perPage: PageSize)

  /** `Math.ceil(totalItems / perPage)`: the least number of pages that
      holds every item. */
  function TotalPages(totalItems: nat, perPage: PageSize): (r: nat)
    ensures (r - 1) * perPage < totalItems <= r * perPage
    ensures r == 0 <==> totalItems == 0
  {
    var q := (totalItems + perPage - 1) / perPage;
    var m := (totalItems + perPage - 1) % perPage;
    assert q * perPage + m == totalItems + perPage - 1;
    q
  }

  /** The 1-based page shown in the label, or 0 when there are no pages.
      `Math.floor(index / perPage)` is Dafny's `/` for a positive divisor. */
  function CurrentPage(s: PageSwitch): (r: int)
    ensures s.totalItems == 0 ==> r == 0
    ensures s.totalItems > 0 ==> (r - 1) * s.perPage <= s.index < r * s.perPage
    ensures 0 <= s.index ==> (r == 0 <==> s.totalItems == 0)
    ensures 0 <= s.index < s.totalItems ==> 1 <= r <= TotalPages(s.totalItems, s.perPage)
  {
    if TotalPages(s.totalItems, s.perPage) > 0 then
      var q := s.index / s.perPage;
      FloorDivBounds(s.index, s.perPage);
      assert (q + 1 - 1) * s.perPage == q * s.perPage;
      assert (q + 1) * s.perPage == q * s.perPage + s.perPage;
      assert 0 <= s.index < s.totalItems ==> q + 1 <= TotalPages(s.totalItems, s.perPage) by {
        if 0 <= s.index < s.totalItems {
          var t := TotalPages(s.totalItems, s.perPage);
          if t < q + 1 {
            MulMonotone(t, q, s.perPage);
          }
        }
      }
      q + 1
    else 0
  }

  /** The page `i / p` is the one whose range `[q * p, q * p + p)` holds `i`. */
  lemma FloorDivBounds(i: int, p: PageSize)
    ensures (i / p) * p <= i < (i / p) * p + p
  {
    assert (i / p) * p + i % p == i;
  }

  /** Multiplying by a page size keeps the order of page numbers. */
  lemma MulMonotone(a: int, b: int, p: PageSize)
    requires a <= b
    ensures a * p <= b * p
  {
    assert b * p - a * p == (b - a) * p;
  }

  /** The "previous" button is disabled at offset 0, where `prevPage` has
      nothing to do: a disabled "previous" button never hides a move. */
  predicate PrevDisabled(s: PageSwitch)
    ensures PrevDisabled(s) ==> PrevPage(s) == s
  {
    s.index == 0
  }

  /** The "next" button is disabled when one more page would start past the
      end, which is exactly when `nextPage` would do nothing. */
  predicate NextDisabled(s: PageSwitch)
    ensures NextDisabled(s) <==> NextPage(s) == s
  {
    s.index + s.perPage >= s.totalItems
  }

  /** `nextPage`: advance by one page when that page starts inside the collection. */
  function NextPage(s: PageSwitch): (r: PageSwitch)
    ensures r.totalItems == s.totalItems && r.perPage == s.perPage
    ensures r.index == s.index || r.index == s.index + s.perPage
    ensures r.index != s.index ==> r.index < s.totalItems
    ensures r.index == s.index ==> s.index + s.perPage >= s.totalItems
  {
    if s.index + s.perPage < s.totalItems then s.(index := s.index + s.perPage) else s
  }

  /** `prevPage`: go back one page when that does not go below offset 0. */
  function PrevPage(s: PageSwitch): (r: PageSwitch)
    ensures r.totalItems == s.totalItems && r.perPage == s.perPage
    ensures r.index == s.index || r.index == s.index - s.perPage
    ensures r.index != s.index ==> 0 <= r.index
    ensures r.index == s.index ==> s.index < s.perPage
    ensures 0 <= s.index ==> 0 <= r.index
  {
    if s.index - s.perPage >= 0 then s.(index := s.index - s.perPage) else s
  }

  /** The two controls of the pager. */
  datatype Button = Prev | Next

  /** The handler a button runs. */
  function Step(s: PageSwitch, b: Button): PageSwitch {
    match b
    case Prev => PrevPage(s)
    case Next => NextPage(s)
  }

  /** A click as the user sees it: a disabled button does nothing. Since a
      button is only disabled where its handler does nothing, a click always
      has the effect of the handler, on every state. */
  function Click(s: PageSwitch, b: Button): (r: PageSwitch)
    ensures r == Step(s, b)
  {
    match b
    case Prev => if PrevDisabled(s) then s else PrevPage(s)
    case Next => if NextDisabled(s) then s else NextPage(s)
  }

  /** The handlers run one after another, left to right. */
  function Run(s: PageSwitch, bs: seq<Button>): PageSwitch
    decreases |bs|
  {
    if |bs| == 0 then s else Run(Step(s, bs[0]), bs[1..])
  }

  /** The invariant of every offset the handlers reach from 0 while the item
      count stays: a non-negative whole number of pages, inside the collection
      unless it is the first page. */
  ghost predicate Aligned(s: PageSwitch) {
    0 <= s.index && s.index % s.perPage == 0 && (s.index == 0 || s.index < s.totalItems)
  }

  /** A whole number of pages is aligned. */
  lemma MultipleIsAligned(k: int, p: PageSize)
    ensures (k * p) % p == 0
  {
    var d, m := (k * p) / p, (k * p) % p;
    assert d * p + m == k * p;
    assert (k - d) * p == m;
    if k - d >= 1 {
      assert false;
    } else if k - d <= -1 {
      assert false;
    }
  }

  /** Each handler keeps the invariant and does not touch the other props. */
  lemma StepKeepsAligned(s: PageSwitch, b: Button)
    requires Aligned(s)
    ensures Aligned(Step(s, b))
    ensures Step(s, b).totalItems == s.totalItems && Step(s, b).perPage == s.perPage
  {
    var q := s.index / s.perPage;
    assert s.index == q * s.perPage;
    match b
    case Next =>
      if s.index + s.perPage < s.totalItems {
        assert s.index + s.perPage == (q + 1) * s.perPage;
        MultipleIsAligned(q + 1, s.perPage);
      }
    case Prev =>
      if s.index - s.perPage >= 0 {
        assert s.index - s.perPage == (q - 1) * s.perPage;
        MultipleIsAligned(q - 1, s.perPage);
      }
  }

  /** Any run of handlers keeps the invariant. */
  lemma {:induction false} RunKeepsAligned(s: PageSwitch, bs: seq<Button>)
    requires Aligned(s)
    ensures Aligned(Run(s, bs))
    ensures Run(s, bs).totalItems == s.totalItems && Run(s, bs).perPage == s.perPage
    decreases |bs|
  {
    if |bs| > 0 {
      StepKeepsAligned(s, bs[0]);
      RunKeepsAligned(Step(s, bs[0]), bs[1..]);
    }
  }

  /** Starting at offset 0, every offset the handlers reach is `Aligned`. */
  lemma ReachableFromZero(s: PageSwitch, bs: seq<Button>)
    requires s.index == 0
    ensures Aligned(Run(s, bs))
  {
    RunKeepsAligned(s, bs);
  }

  /** `n` presses of "next". */
  function Nexts(n: nat): (r: seq<Button>)
    ensures |r| == n
    ensures forall k :: 0 <= k < n ==> r[k] == Next
  {
    if n == 0 then [] else [Next] + Nexts(n - 1)
  }

  /** While the last of `n` pages ahead still starts inside the collection,
      `n` presses of "next" move the offset forward by exactly `n` pages. */
  lemma {:induction false} NextsFrom(i: int, n: nat, total: nat, p: PageSize)
    requires n == 0 || i + n * p < total
    ensures Run(PageSwitch(i, total, p), Nexts(n)) == PageSwitch(i + n * p, total, p)
    decreases n
  {
    if n > 0 {
      var s := PageSwitch(i, total, p);
      assert i + n * p == (i + p) + (n - 1) * p;
      MulMonotone(1, n, p);
      assert Step(s, Next) == PageSwitch(i + p, total, p);
      assert Nexts(n)[1..] == Nexts(n - 1);
      NextsFrom(i + p, n - 1, total, p);
    }
  }

  /** The converse of `ReachableFromZero`: every `Aligned` offset is reached
      from 0, by one press of "next" per page before it. */
  lemma AlignedIsReachable(s: PageSwitch)
    requires Aligned(s)
    ensures Run(s.(index := 0), Nexts(s.index / s.perPage)) == s
  {
    var q := s.index / s.perPage;
    assert s.index == q * s.perPage;
    NextsFrom(0, q, s.totalItems, s.perPage);
  }

  /** The offset is a non-negative whole number of pages. Unlike `Aligned`,
      this says nothing about the item count, so it survives the collection
      shrinking under the offset. */
  ghost predicate OnPageBoundary(s: PageSwitch) {
    0 <= s.index && s.index % s.perPage == 0
  }

  /** On every offset that is a whole number of pages, including offsets left
      past the end after the collection shrank, the "previous" button is
      disabled exactly when `prevPage` would do nothing. */
  lemma PrevDisabledIffNoop(s: PageSwitch)
    requires OnPageBoundary(s)
    ensures PrevDisabled(s) <==> PrevPage(s) == s
  {
  }

  /** What can happen to a pager's props: a button press, or the owner
      passing a new item count (the favorites panel's list shrinks or grows
      while the offset stays). */
  datatype PagerEvent = Press(button: Button) | Resize(totalItems: nat)

  /** Applies one event. */
  function ApplyEvent(s: PageSwitch, e: PagerEvent): PageSwitch {
    match e
    case Press(b) => Step(s, b)
    case Resize(n) => s.(totalItems := n)
  }

  /** Applies events in order. */
  function Replay(s: PageSwitch, es: seq<PagerEvent>): PageSwitch
    decreases |es|
  {
    if |es| == 0 then s else Replay(ApplyEvent(s, es[0]), es[1..])
  }

  /** Each event keeps the offset on a page boundary and the page size fixed. */
  lemma EventKeepsBoundary(s: PageSwitch, e: PagerEvent)
    requires OnPageBoundary(s)
    ensures OnPageBoundary(ApplyEvent(s, e))
    ensures ApplyEvent(s, e).perPage == s.perPage
  {
    var q := s.index / s.perPage;
    assert s.index == q * s.perPage;
    match e
    case Resize(_) =>
    case Press(Next) =>
      if s.index + s.perPage < s.totalItems {
        assert s.index + s.perPage == (q + 1) * s.perPage;
        MultipleIsAligned(q + 1, s.perPage);
      }
    case Press(Prev) =>
      if s.index - s.perPage >= 0 {
        assert s.index - s.perPage == (q - 1) * s.perPage;
        MultipleIsAligned(q - 1, s.perPage);
      }
  }

  /** Any run of presses and item-count changes keeps the offset on a page
      boundary. */
  lemma {:induction false} ReplayKeepsBoundary(s: PageSwitch, es: seq<PagerEvent>)
    requires OnPageBoundary(s)
    ensures OnPageBoundary(Replay(s, es))
    ensures Replay(s, es).perPage == s.perPage
    decreases |es|
  {
    if |es| > 0 {
      EventKeepsBoundary(s, es[0]);
      ReplayKeepsBoundary(ApplyEvent(s, es[0]), es[1..]);
    }
  }

  /** Starting at offset 0, whatever presses and item-count changes follow,
      the offset stays a non-negative multiple of the page size and the
      "previous" button is disabled exactly when `prevPage` would do nothing. */
  lemma ReachableWithResizes(s: PageSwitch, es: seq<PagerEvent>)
    requires s.index == 0
    ensures OnPageBoundary(Replay(s, es))
    ensures PrevDisabled(Replay(s, es)) <==> PrevPage(Replay(s, es)) == Replay(s, es)
  {
    ReplayKeepsBoundary(s, es);
    PrevDisabledIffNoop(Replay(s, es));
  }

  /** Five items, three per page: press "next", then drop two items. The
      offset stays at 3 while one page remains, so the label reads
      "Page 2 of 1" and the offset is no longer `Aligned`. */
  lemma ShrinkUnderOffset()
    ensures var t := Replay(PageSwitch(0, 5, 3), [Press(Next), Resize(3)]);
      && t == PageSwitch(3, 3, 3)
      && CurrentPage(t) == 2 && TotalPages(t.totalItems, t.perPage) == 1
      && !Aligned(t) && OnPageBoundary(t)
  {
  }

  /** If `nextPage` moved a non-negative offset, `prevPage` undoes it. */
  lemma NextThenPrev(s: PageSwitch)
    requires 0 <= s.index && NextPage(s) != s
    ensures PrevPage(NextPage(s)) == s
  {
  }

  /** If `prevPage` moved an offset inside the collection, `nextPage` undoes it. */
  lemma PrevThenNext(s: PageSwitch)
    requires s.index < s.totalItems && PrevPage(s) != s
    ensures NextPage(PrevPage(s)) == s
  {
  }

  /** On an offset the handlers alone reach from 0, in a non-empty collection,
      the label shows a page between 1 and the page count, and the offset is
      that page's first item. */
  lemma AlignedPageInRange(s: PageSwitch)
    requires Aligned(s) && s.totalItems > 0
    ensures 1 <= CurrentPage(s) <= TotalPages(s.totalItems, s.perPage)
    ensures s.index == (CurrentPage(s) - 1) * s.perPage
  {
    var q := s.index / s.perPage;
    assert s.index == q * s.perPage;
  }

  /** An empty collection: no pages, label page 0, both handlers do nothing
      from offset 0. */
  lemma EmptyCollection(s: PageSwitch)
    requires Aligned(s) && s.totalItems == 0
    ensures TotalPages(s.totalItems, s.perPage) == 0 && CurrentPage(s) == 0
    ensures NextPage(s) == s && PrevPage(s) == s
    ensures PrevDisabled(s) && NextDisabled(s)
  {
  }

  /** The items of the current page, `items.slice(index, index + perPage)`:
      at most one page, starting at the offset, empty past the end. */
  function Visible<T>(items: seq<T>, s: PageSwitch): (r: seq<T>)
    ensures |r| <= s.perPage
    ensures 0 <= s.index ==>
              forall k :: 0 <= k < |r| ==> s.index + k < |items| && r[k] == items[s.index + k]
    ensures 0 <= s.index < |items| ==>
              |r| == (if s.index + s.perPage < |items| then s.perPage else |items| - s.index)
    ensures 0 <= s.index && |items| <= s.index ==> r == []
  {
    Slice(items, s.index, s.index + s.perPage)
  }

  /** Every item is shown, at its place, on the page that starts at the
      nearest multiple of the page size below it, and that page is reached
      from offset 0 by pressing "next" once per page before it. */
  lemma EveryItemOnAlignedPage<T>(items: seq<T>, k: int, perPage: PageSize)
    requires 0 <= k < |items|
    ensures var s := PageSwitch((k / perPage) * perPage, |items|, perPage);
      && Aligned(s)
      && Run(PageSwitch(0, |items|, perPage), Nexts(k / perPage)) == s
      && k % perPage < |Visible(items, s)|
      && Visible(items, s)[k % perPage] == items[k]
  {
    ItemOnItsPage(items, k, perPage);
    PageOfItemReachable(k, |items|, perPage);
  }

  /** Item `k` is entry `k % p` of the aligned page at `(k / p) * p`. */
  lemma ItemOnItsPage<T>(items: seq<T>, k: int, perPage: PageSize)
    requires 0 <= k < |items|
    ensures var s := PageSwitch((k / perPage) * perPage, |items|, perPage);
      && Aligned(s)
      && k % perPage < |Visible(items, s)|
      && Visible(items, s)[k % perPage] == items[k]
  {
    var start := (k / perPage) * perPage;
    assert start + k % perPage == k;
    MultipleIsAligned(k / perPage, perPage);
  }

  /** The page that holds item `k` is reached from offset 0 by pressing
      "next" once per page before it. */
  lemma PageOfItemReachable(k: int, total: nat, p: PageSize)
    requires 0 <= k < total
    ensures Run(PageSwitch(0, total, p), Nexts(k / p)) == PageSwitch((k / p) * p, total, p)
  {
    FloorDivBounds(k, p);
    NextsFrom(0, k / p, total, p);
  }
}
