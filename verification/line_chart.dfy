/** The chart grid (`CryptoLineCharts`): every fetched coin gets its synthetic
    price series once, and the grid shows four charts per page, coloured in
    turn from a four-colour palette, with a pager only when one page is not
    enough. */
module LineChart {
  import opened Coins
  import opened Pager
  import opened PriceHistory

  /** Charts per page in the grid. */
  const ChartsPerPage: PageSize := 4

  /** A line colour and its fill. */
  datatype ChartColour = ChartColour(border: string, background: string)

  /** The four colours, used in turn: one per chart of a page, no two lines
      or fills alike, so the charts of one page are told apart by colour. */
  function Palette(): (r: seq<ChartColour>)
    ensures |r| == ChartsPerPage
    ensures forall i, j :: 0 <= i < j < |r| ==> r[i].border != r[j].border && r[i].background != r[j].background
  {
    [
      ChartColour("rgb(15,255,0)", "rgb(64,178,56)"),
      ChartColour("rgb(0,23,255)", "rgb(16,13,83)"),
      ChartColour("rgb(255,104,0)", "rgba(249, 115, 22, 0.2)"),
      ChartColour("rgb(255,0,125)", "rgba(236, 72, 153, 0.2)")
    ]
  }

  /** A fetched coin with its price series attached. */
  datatype ChartCoin = ChartCoin(coin: Coin, history: seq<PricePoint>)

  /** `data.map(...)` in `loadData`: each coin, in order, with the series
      generated from its current price and its id. */
  function AttachHistories(data: seq<Coin>, sine: ScaledSine): (r: seq<ChartCoin>)
    ensures |r| == |data|
    ensures forall k :: 0 <= k < |r| ==>
              && r[k].coin == data[k]
              && |r[k].history| == Days + 1
              && r[k].history[Days].price == data[k].currentPrice
              && IsHistory(r[k].history, data[k].currentPrice, Seed(data[k].id), Days, sine)
  {
    seq(|data|, k requires 0 <= k < |data| =>
      ChartCoin(data[k], PriceHistoryOf(data[k].currentPrice, data[k].id, sine)))
  }

  /** One chart on the page and its colours. */
  datatype Panel = Panel(chart: ChartCoin, colour: ChartColour)

  /** The grid: a loading message, or a page of charts and, when there is more
      than one page, the pager. */
  datatype ChartsView =
    | LoadingCharts
    | ChartGrid(panels: seq<Panel>, pager: Option<PageSwitch>)

  /** The grid for the loading flag, the charted coins and the pager offset. */
  function RenderCharts(loading: bool, charts: seq<ChartCoin>, index: int): (r: ChartsView)
    ensures r.LoadingCharts? <==> loading
    ensures r.ChartGrid? ==> |r.panels| <= ChartsPerPage
    ensures r.ChartGrid? ==>
              forall k :: 0 <= k < |r.panels| ==> r.panels[k].colour == Palette()[k % |Palette()|]
    ensures r.ChartGrid? && 0 <= index ==>
              forall k :: 0 <= k < |r.panels| ==>
                index + k < |charts| && r.panels[k].chart == charts[index + k]
    ensures r.ChartGrid? && 0 <= index && |charts| <= index ==> r.panels == []
    ensures r.ChartGrid? && 0 <= index < |charts| ==>
              |r.panels| == if index + ChartsPerPage < |charts| then ChartsPerPage else |charts| - index
    ensures r.ChartGrid? ==> (r.pager.Some? <==> |charts| > ChartsPerPage)
    ensures r.ChartGrid? && r.pager.Some? ==>
              r.pager.value == PageSwitch(index, |charts|, ChartsPerPage)
  {
    if loading then LoadingCharts
    else
      var pager := PageSwitch(index, |charts|, ChartsPerPage);
      var window := Visible(charts, pager);
      ChartGrid(
        seq(|window|, k requires 0 <= k < |window| => Panel(window[k], Palette()[k % |Palette()|])),
        if |charts| > ChartsPerPage then Some(pager) else None)
  }

  /** With at most one page of coins the pager is hidden and, from offset 0,
      every coin is charted, in order. */
  lemma SinglePageShowsAll(charts: seq<ChartCoin>)
    requires |charts| <= ChartsPerPage
    ensures var v := RenderCharts(false, charts, 0);
      && v.pager.None?
      && |v.panels| == |charts|
      && forall k :: 0 <= k < |charts| ==> v.panels[k].chart == charts[k]
  {
  }

  /** Every coin is charted on a page the pager can reach from offset 0. */
  lemma EveryCoinCharted(charts: seq<ChartCoin>, k: int)
    requires 0 <= k < |charts|
    ensures var v := RenderCharts(false, charts, (k / 4) * 4);
      && v.ChartGrid?
      && (v.pager.Some? ==> Aligned(v.pager.value))
      && (v.pager.Some? ==> Run(PageSwitch(0, |charts|, ChartsPerPage), Nexts(k / 4)) == v.pager.value)
      && k % 4 < |v.panels|
      && v.panels[k % 4].chart == charts[k]
  {
    CoinOnItsPage(charts, k);
    PageOfItemReachable(k, |charts|, ChartsPerPage);
  }

  /** Coin `k` is panel `k % 4` of the page at `(k / 4) * 4`, whose pager, when
      shown, is aligned and starts there. */
  lemma CoinOnItsPage(charts: seq<ChartCoin>, k: int)
    requires 0 <= k < |charts|
    ensures var v := RenderCharts(false, charts, (k / 4) * 4);
      && v.ChartGrid?
      && (v.pager.Some? ==> Aligned(v.pager.value))
      && (v.pager.Some? ==> v.pager.value == PageSwitch((k / 4) * 4, |charts|, ChartsPerPage))
      && k % 4 < |v.panels|
      && v.panels[k % 4].chart == charts[k]
  {
  }
}
