# Crypto dashboard core, modelled in Dafny

The dashboard is a React front end over a market-data endpoint. This
project models its sequential logic as pure functions over immutable
values. The fetched coin list is an input. The model covers:

- **Pager** (`pager.dfy`, module `Pager`). This is the `PageSwitch` control,
  which exists twice with identical logic:
  `src/components/PageSwitchComponent.tsx` for the chart grid and
  `src/components/PageSwitchCard.tsx` for the favorites panel. It models the
  page count (`Math.ceil`), the 1-based page label, the guarded `nextPage` and
  `prevPage` handlers, and the two disabled predicates. `Visible` is the page
  window `items.slice(index, index + perPage)` that both callers cut. The
  invariant `Aligned` says the offset is a non-negative whole number of pages,
  inside the collection or 0. It holds for every offset the handlers reach
  from 0. The favorites panel's item count can drop below the offset while the
  offset stays, so there only the weaker `OnPageBoundary` holds: the offset is
  a non-negative whole number of pages. `PagerEvent` adds these item-count
  changes to the button presses, and `ReachableWithResizes` proves the weaker
  invariant for any mix of the two.
- **Search** (`search.dfy`, module `Search`). This is `App.tsx`: the
  case-insensitive name filter `handleSearch`, the load that sets both
  lists, and the rendered list.
- **Favorites panel** (`favorites.dfy`, module `Favorites`). This is
  `FavoriteCoinsComponent.tsx`: the id-membership filter, the empty-state
  branch, the page of at most 3 cards, and the pager wiring.
- **Price history** (`price_history.dfy`, module `PriceHistory`). This is
  `generatePriceHistory` in `LineChartComponent.tsx`:
  - the character-code seed;
  - the loop from `days` down to 0;
  - the drift step of at most 2%;
  - the final point pinned to the current price.

  The method `GeneratePriceHistory` follows the loop as written. It is proved
  equal to the recursive definition `History`. The predicate `IsHistory` says
  point by point what a series is.
- **Chart grid** (`line_chart.dfy`, module `LineChart`). This covers the
  histories attached once per coin, the window of 4 charts, the palette
  colour `index % 4`, and the pager shown only for more than 4 coins.
- `seqs.dfy` (module `Seqs`) holds the order-preserving filter `Keep`
  (`Array.prototype.filter`), the subsequence relation, and `Slice`
  (`Array.prototype.slice`, with negative and out-of-range bounds).
  `coins.dfy` holds the `Coin` record.

Numbers in the source are JavaScript doubles. Offsets, counts and page sizes
are modelled as integers. For a positive divisor, `Math.floor(i / p)` equals
Dafny's `/` for every integer `i`, so the label is exact even for negative
offsets. Prices are exact reals. The page size is a positive integer; the
components only pass 3 and 4.

`App.tsx` renders the filtered list without a pager. So nothing resets a
page offset on search, and no reset operation is modelled.

## Model

| member | source | states |
|---|---|---|
| `Seqs.Keep` | src/App.tsx:37-39 | `filter` keeps a subsequence of its input, in the input's order. Every kept element satisfies the predicate, and every element that does is kept. Each kept value occurs as often as in the input, and a rejected value does not occur. |
| `Seqs.Slice` | src/components/FavoriteCoinsComponent.tsx:44-45 | `slice(start, end)` returns a run of consecutive elements of the sequence. With `start >= 0` the run starts at `start`; with `start < 0` it starts `-start` elements before the end, or at 0. It holds at most `end - start` elements, is cut at the end of the sequence, and is empty once `start` is past the end or `0 <= end <= start`. For `start < 0` its length is the distance between the two clamped bounds, or 0. |
| `Pager.TotalPages` | src/components/PageSwitchComponent.tsx:23 | The page count is the ceiling of items over page size: `(r-1)*p < n <= r*p`. It is 0 exactly when there are no items. |
| `Pager.CurrentPage` | src/components/PageSwitchCard.tsx:12 | The label is 0 when there are no items. Otherwise it is the 1-based page holding the offset, `(r-1)*p <= index < r*p`. It is 0 iff there are no items, for offsets `>= 0`. It lies in `1..TotalPages` for an offset inside the collection. |
| `Pager.NextPage` | src/components/PageSwitchComponent.tsx:30-34 | `nextPage` either stays or moves forward exactly one page. It moves only to an offset inside the collection. It stays only when the next page would start at or past the end. The item count and page size never change. |
| `Pager.PrevPage` | src/components/PageSwitchComponent.tsx:39-43 | `prevPage` either stays or moves back exactly one page. It never moves below 0, and a non-negative offset stays non-negative. It stays only when the offset is below one page. |
| `Pager.PrevDisabled` | src/components/PageSwitchComponent.tsx:47 | The "previous" button is disabled only where `prevPage` would do nothing, so it never hides a move. |
| `Pager.NextDisabled` | src/components/PageSwitchCard.tsx:14-32 | The "next" button is disabled exactly when `nextPage` would do nothing. |
| `Pager.Click` | src/components/PageSwitchCard.tsx:20-32 | On every state, clicking a button has the same effect as calling its handler directly. |
| `Pager.PrevDisabledIffNoop` | src/components/PageSwitchComponent.tsx:39-47 | On every offset that is a non-negative whole number of pages, including one left past the end, the "previous" button is disabled exactly when `prevPage` would do nothing. |
| `Pager.EventKeepsBoundary` | src/components/PageSwitchCard.tsx:14-24 | A press of either button, or a change of the item count, keeps the offset a non-negative whole number of pages and keeps the page size. |
| `Pager.ReplayKeepsBoundary` | src/components/PageSwitchCard.tsx:14-24 | Any sequence of presses and item-count changes keeps that weaker invariant. |
| `Pager.ReachableWithResizes` | src/components/FavoriteCoinsComponent.tsx:43-55 | From offset 0, after any presses and changes of the favorite count, the offset is a non-negative multiple of the page size and "previous" is disabled exactly when `prevPage` would do nothing. |
| `Pager.StepKeepsAligned` | src/components/PageSwitchCard.tsx:14-24 | Each handler keeps the offset a non-negative whole number of pages, inside the collection or 0. It leaves the item count and page size alone. |
| `Pager.RunKeepsAligned` | src/components/PageSwitchComponent.tsx:30-43 | Any sequence of handler calls keeps that invariant. |
| `Pager.ReachableFromZero` | src/components/PageSwitchComponent.tsx:30-43 | From offset 0, every offset the handlers reach is `Aligned`: a multiple of the page size, `>= 0`, and inside the collection unless it is 0. |
| `Pager.NextsFrom` | src/components/PageSwitchComponent.tsx:30-34 | While the last page ahead still starts inside the collection, `n` presses of "next" move the offset forward by exactly `n` pages. |
| `Pager.AlignedIsReachable` | src/components/PageSwitchComponent.tsx:30-34 | The converse of `ReachableFromZero`: every `Aligned` state is reached from offset 0 by one press of "next" per page before it. |
| `Pager.ShrinkUnderOffset` | src/components/FavoriteCoinsComponent.tsx:43-55 | Five items, three per page: after "next" and a drop to three items, the offset stays at 3 and the label reads "Page 2 of 1". The state is on a page boundary but no longer `Aligned`. |
| `Pager.NextThenPrev` | src/components/PageSwitchComponent.tsx:30-43 | If `nextPage` moved a non-negative offset, a following `prevPage` restores it. |
| `Pager.PrevThenNext` | src/components/PageSwitchCard.tsx:14-24 | If `prevPage` moved an offset inside the collection, a following `nextPage` restores it. |
| `Pager.AlignedPageInRange` | src/components/PageSwitchComponent.tsx:25 | On an offset the handlers alone reach from 0 (`Aligned`) in a non-empty collection, the label is between 1 and the page count, and the offset is the first item of that page. |
| `Pager.EmptyCollection` | src/components/PageSwitchComponent.tsx:23-51 | With no items, a pager whose offset the handlers alone reached from 0 (`Aligned`) shows "Page 0 of 0". Both handlers do nothing and both buttons are disabled. |
| `Pager.Visible` | src/components/LineChartComponent.tsx:166 | The page window holds at most one page of items. They are the items from the offset on, in order, and the window is empty when the offset is past the end. |
| `Pager.EveryItemOnAlignedPage` | src/components/FavoriteCoinsComponent.tsx:44-45 | Every item appears, at position `k % p`, on the page that starts at the `Aligned` offset `(k / p) * p`. That page is reached from offset 0 by `k / p` presses of "next". |
| `Pager.PageOfItemReachable` | src/components/PageSwitchComponent.tsx:30-34 | The page holding item `k` is reached from offset 0 by `k / p` presses of "next". |
| `Search.Lower` | src/App.tsx:36-38 | Lower-casing keeps the length and leaves no ASCII capital. Each capital becomes its small letter, 32 code points higher, and every other character is unchanged. |
| `Search.Includes` | src/App.tsx:38 | `includes` is true exactly when the query occurs at some position of the string. |
| `Search.SearchFilter` | src/App.tsx:35-39 | The search result is a subsequence of the list. A coin of the list is in it exactly when its lower-cased name contains the lower-cased query, and then as often as in the list. |
| `Search.EmptyQueryKeepsAll` | src/App.tsx:36-39 | The empty query returns the list unchanged. |
| `Search.CaseInsensitive` | src/App.tsx:36 | Queries that lower-case alike give the same result. |
| `Search.LowerQuerySameResult` | src/App.tsx:36-38 | Searching for the lower-cased query gives the same result as searching for the query. |
| `Search.AfterFetch` | src/App.tsx:19-33 | A delivered list replaces both the fetched and the rendered list. A failed fetch changes neither. Loading stops either way. |
| `Search.HandleSearch` | src/App.tsx:35-41 | A search replaces only the rendered list. The new list is a subsequence of the full fetched list. A fetched coin is in it iff its name matches, and then as often as in the fetched list. |
| `Search.SearchForgetsEarlierSearch` | src/App.tsx:37 | A later search does not depend on an earlier one, because it reads the full fetched list. |
| `Search.Initial` | src/App.tsx:15-17 | At mount both lists are empty and loading is on, so nothing but the loading message is shown, and the rendered list is drawn from the fetched one. |
| `Search.Rendered` | src/App.tsx:47-61 | The loading message is shown exactly while loading. Once loading stops the grid shows the filtered list, not the fetched one. |
| `Search.LoadShowsEverything` | src/App.tsx:22-24 | After a successful load the whole list is rendered, and an empty search renders it again. |
| `Search.RenderedIsSubsequence` | src/App.tsx:15-41 | Over any sequence of fetch results and searches, the rendered list stays a subsequence of the fetched list. |
| `Search.AlphaBetaExample` | src/App.tsx:35-41 | For the list Alpha, Beta, the query "al" selects Alpha only. |
| `Favorites.FavoriteCoins` | src/components/FavoriteCoinsComponent.tsx:27 | The favorite coins are a subsequence of the market list, in the list's order. They are exactly the listed coins whose id is a favorite, each as often as in the list, and there are no more of them than coins. |
| `Favorites.FavoritesOnlyMembershipMatters` | src/components/FavoriteCoinsComponent.tsx:27 | Only which ids are favorites matters: their order and repetitions do not. |
| `Favorites.UnmatchedFavoriteIgnored` | src/components/FavoriteCoinsComponent.tsx:27 | A favorite id that matches no coin contributes nothing. |
| `Favorites.RenderFavorites` | src/components/FavoriteCoinsComponent.tsx:24-65 | See the notes below this table. |
| `Favorites.FavoritesWithoutCoins` | src/components/FavoriteCoinsComponent.tsx:27-65 | If there are favorite ids but no coin carries one, the panel shows no cards and a pager over 0 items. |
| `Favorites.EveryFavoriteOnSomePage` | src/components/FavoriteCoinsComponent.tsx:44-45 | Every favorite coin `k` is card `k % 3` of the page at `(k / 3) * 3`. The pager reaches that page from 0 by `k / 3` presses of "next". |
| `Favorites.StaleOffsetLabelPastEnd` | src/components/FavoriteCoinsComponent.tsx:43-55 | After the favorite coins shrank below a page-boundary offset, the label names a page past the last one, as in "Page 2 of 1". |
| `Favorites.StaleOffsetShowsEmptyPage` | src/components/FavoriteCoinsComponent.tsx:24-45 | When the favorite coins shrink below the offset, nothing clamps it. The page is empty, "next" does nothing, and "previous" still goes back one page. |
| `PriceHistory.CharCode` | src/components/LineChartComponent.tsx:68 | A character's code is a UTF-16 unit. It is the code point itself inside the Basic Multilingual Plane. Outside it, it is the high surrogate `0xD800 + (c - 0x10000) / 0x400`, pinned by `(r - 0xD800) * 0x400 <= c - 0x10000 < (r - 0xD800 + 1) * 0x400`. |
| `PriceHistory.Seed` | src/components/LineChartComponent.tsx:68 | The seed is at most `0xFFFF` per character, so 0 for the empty id. |
| `PriceHistory.SeedAppend` | src/components/LineChartComponent.tsx:68 | The seed adds up over concatenation, so it is the sum of the character codes. |
| `PriceHistory.SeedOfBtc` | src/components/LineChartComponent.tsx:68 | The seed of "btc" is 98 + 116 + 99. |
| `PriceHistory.NormalizedRandom` | src/components/LineChartComponent.tsx:77-79 | Whatever value the sine gives, `normalizedRandom` lies in `[-1, 1)`. |
| `PriceHistory.DaySeedsDistinct` | src/components/LineChartComponent.tsx:77 | Today's day seed is the coin's seed, and an older day has a larger seed, so no two days of one coin share a day seed. |
| `PriceHistory.DriftBounds` | src/components/LineChartComponent.tsx:81-91 | One step from a positive price lands in `[0.98, 1.02)` times that price, so it stays positive. |
| `PriceHistory.DriftDirection` | src/components/LineChartComponent.tsx:83-90 | From a positive price, a positive draw raises the price, a negative one lowers it, and a zero draw keeps it. |
| `PriceHistory.WalkShape` | src/components/LineChartComponent.tsx:72-92 | The drift steps stand for days `i` down to 1. Each is one step from the price before it, driven by its own day seed `seed + 137 * daysAgo`. |
| `PriceHistory.History` | src/components/LineChartComponent.tsx:62-101 | The series has `days + 1` points, for `days` days ago down to today. Every point but the last is one drift step from the one before it, starting from the current price. The last point is the current price exactly. |
| `PriceHistory.PriceHistoryOf` | src/components/LineChartComponent.tsx:62-64 | With `days = 14` the series has 15 points, and the last one is today's point at the current price. |
| `PriceHistory.GeneratePriceHistory` | src/components/LineChartComponent.tsx:62-101 | The loop as written produces exactly the series `History` describes. It has `days + 1` points and ends at the current price. |
| `PriceHistory.HistoryDetermined` | src/components/LineChartComponent.tsx:62-100 | Two series that both fit that description are equal. The series depends only on the price, the id's seed, the day count and the sine values; dates play no part. |
| `PriceHistory.StepWithinTwoPercent` | src/components/LineChartComponent.tsx:82-91 | In a series, each step from a positive price stays within 2% of it. |
| `PriceHistory.HistoryPositive` | src/components/LineChartComponent.tsx:82-91 | From a positive current price every point is positive. Each step is within `[0.98, 1.02)` of the price before it. |
| `LineChart.Palette` | src/components/LineChartComponent.tsx:25-30 | There is one colour per chart of a page, and no two charts of a page share a line or a fill colour. |
| `LineChart.AttachHistories` | src/components/LineChartComponent.tsx:44-49 | Each coin keeps its place and gets a 15-point series built from its own current price and id. The series ends at that price. |
| `LineChart.RenderCharts` | src/components/LineChartComponent.tsx:157-217 | See the notes below this table. |
| `LineChart.SinglePageShowsAll` | src/components/LineChartComponent.tsx:166-208 | With at most 4 coins, the pager is hidden and offset 0 charts every coin in order. |
| `LineChart.EveryCoinCharted` | src/components/LineChartComponent.tsx:166-217 | Every coin `k` is panel `k % 4` of the page at `(k / 4) * 4`. When the pager is shown, it reaches that page from offset 0 by `k / 4` presses of "next". |

`Favorites.RenderFavorites` states:

- The empty state is shown exactly when there are no favorite ids.
- Otherwise the pager counts the favorite coins, not the favorite ids.
- There are at most 3 cards, each marked favorite.
- The cards are the favorite coins from the offset on, in order.
- Past the end there are no cards.

`LineChart.RenderCharts` states:

- The loading message is shown exactly while loading.
- Otherwise there are at most 4 panels: the charted coins from the offset on,
  in order. From an offset inside the list there are exactly 4, or all the
  coins left when fewer remain.
- Panel `k` gets palette colour `k % 4`, which is always a valid palette index.
- The pager is present exactly when there are more than 4 coins, and it pages
  over all of them.

## Left out

- Network I/O (`src/utility/api.ts`, the `useEffect` loaders) is not modelled.
  A fetch becomes its outcome: a delivered list or a failure. The chart
  grid's loading flag is an input of `RenderCharts`.
- Favorites toggling and persistence are not modelled. The favorite ids and
  the toggle callback reach the favorites panel as props, and no file of the
  core changes or stores them.
- `Math.sin` and the calendar are outside the model. The model takes
  `Math.sin(daySeed) * 10000` as a parameter function and replaces each date
  by its offset in days. Doubles are exact reals, so rounding of the drift
  steps is not modelled.
- `Search.Lower`: only ASCII letters are lower-cased. JavaScript's
  `toLowerCase` follows full Unicode case mapping, which can also change the
  length of a string.
- Rendering is not modelled: card and chart markup, number formatting,
  Chart.js options, the search bar's input state, the detail view, and the
  donut charts.
- `Pager.PrevDisabledIffNoop`: this needs the offset to be a whole number of
  pages. At offset 2 with page size 3 the button is enabled but its handler
  does nothing. No mix of presses and item-count changes from 0 reaches such
  an offset (`Pager.ReachableWithResizes`), and both components start at 0.
