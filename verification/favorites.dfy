/** The favorites panel (`FavoriteCoins`): the coins of the market list whose
    id is among the favorite ids, shown three at a time under its own pager. */
module Favorites {
  import opened Seqs
  import opened Coins
  import opened Pager

  /** Cards per page in the favorites panel. */
  const FavoritesPerPage: PageSize := 3

  /** `favoriteCoins`: the market list filtered by id membership in the
      favorite ids. Order and multiplicity follow the market list. */
  function FavoriteCoins(data: seq<Coin>, favorites: seq<string>): (r: seq<Coin>)
    ensures Subsequence(r, data)
    ensures |r| <= |data|
    ensures forall c :: c in r <==> c in data && c.id in favorites
    ensures forall c :: c in data ==>
              multiset(r)[c] == if c.id in favorites then multiset(data)[c] else 0
  {
    Keep(data, (c: Coin) => c.id in favorites)
  }

  /** Only which ids are favorites matters to the filter, not their order,
      repetitions, or ids no coin carries. */
  lemma FavoritesOnlyMembershipMatters(data: seq<Coin>, f1: seq<string>, f2: seq<string>)
    requires forall c :: c in data ==> (c.id in f1 <==> c.id in f2)
    ensures FavoriteCoins(data, f1) == FavoriteCoins(data, f2)
  {
    KeepAgree(data, (c: Coin) => c.id in f1, (c: Coin) => c.id in f2);
  }

  /** A favorite id that matches no coin contributes nothing. */
  lemma UnmatchedFavoriteIgnored(data: seq<Coin>, favorites: seq<string>, id: string)
    requires forall c :: c in data ==> c.id != id
    ensures FavoriteCoins(data, favorites + [id]) == FavoriteCoins(data, favorites)
  {
    FavoritesOnlyMembershipMatters(data, favorites + [id], favorites);
  }

  /** One rendered card and the star state it is given. */
  datatype Card = Card(coin: Coin, isFavorite: bool)

  /** The panel: the empty-state message, or a page of cards plus the pager. */
  datatype FavoritesView =
    | NoFavorites
    | FavoritesList(cards: seq<Card>, pager: PageSwitch)

  /** The panel for the favorite ids, the market list and the pager offset. */
  function RenderFavorites(favorites: seq<string>, data: seq<Coin>, index: int): (r: FavoritesView)
    ensures r.NoFavorites? <==> |favorites| == 0
    ensures r.FavoritesList? ==>
              r.pager == PageSwitch(index, |FavoriteCoins(data, favorites)|, FavoritesPerPage)
    ensures r.FavoritesList? ==> |r.cards| <= FavoritesPerPage
    ensures r.FavoritesList? ==>
              forall k :: 0 <= k < |r.cards| ==>
                r.cards[k].isFavorite && r.cards[k].coin in data && r.cards[k].coin.id in favorites
    ensures r.FavoritesList? && 0 <= index ==>
              forall k :: 0 <= k < |r.cards| ==>
                index + k < |FavoriteCoins(data, favorites)| &&
                r.cards[k].coin == FavoriteCoins(data, favorites)[index + k]
    ensures r.FavoritesList? && 0 <= index < |FavoriteCoins(data, favorites)| ==>
              |r.cards| == if index + FavoritesPerPage < |FavoriteCoins(data, favorites)|
                           then FavoritesPerPage else |FavoriteCoins(data, favorites)| - index
    ensures r.FavoritesList? && |FavoriteCoins(data, favorites)| <= index ==> r.cards == []
  {
    if |favorites| == 0 then NoFavorites
    else
      var coins := FavoriteCoins(data, favorites);
      var pager := PageSwitch(index, |coins|, FavoritesPerPage);
      var window := Visible(coins, pager);
      assert window == Slice(coins, index, index + FavoritesPerPage);
      FavoritesList(seq(|window|, k requires 0 <= k < |window| => Card(window[k], true)), pager)
  }

  /** With favorite ids but no coin carrying any of them (for instance before
      the market list arrives), the panel shows no cards and an empty pager. */
  lemma FavoritesWithoutCoins(favorites: seq<string>, data: seq<Coin>, index: int)
    requires |favorites| > 0
    requires forall c :: c in data ==> c.id !in favorites
    ensures RenderFavorites(favorites, data, index)
              == FavoritesList([], PageSwitch(index, 0, FavoritesPerPage))
  {
  }

  /** Every favorite coin is shown on some page the pager can reach from
      offset 0: the page starting at the nearest multiple of 3 below it. */
  lemma EveryFavoriteOnSomePage(favorites: seq<string>, data: seq<Coin>, k: int)
    requires |favorites| > 0
    requires 0 <= k < |FavoriteCoins(data, favorites)|
    ensures var v := RenderFavorites(favorites, data, (k / 3) * 3);
      && v.FavoritesList?
      && Aligned(v.pager)
      && Run(PageSwitch(0, |FavoriteCoins(data, favorites)|, FavoritesPerPage), Nexts(k / 3)) == v.pager
      && k % 3 < |v.cards|
      && v.cards[k % 3].coin == FavoriteCoins(data, favorites)[k]
  {
    EveryItemOnAlignedPage(FavoriteCoins(data, favorites), k, FavoritesPerPage);
  }

  /** After the favorite list shrank below a page-boundary offset, the label
      names a page past the last one ("Page 2 of 1"). */
  lemma StaleOffsetLabelPastEnd(favorites: seq<string>, data: seq<Coin>, index: int)
    requires |favorites| > 0 && index % FavoritesPerPage == 0
    requires 0 < |FavoriteCoins(data, favorites)| <= index
    ensures var v := RenderFavorites(favorites, data, index);
      CurrentPage(v.pager) > TotalPages(v.pager.totalItems, v.pager.perPage)
  {
  }

  /** When the favorite list shrinks below the current offset nothing clamps
      the offset: the page is empty, "next" is disabled, and "previous" still
      moves back one page. */
  lemma StaleOffsetShowsEmptyPage(favorites: seq<string>, data: seq<Coin>, index: int)
    requires |favorites| > 0
    requires FavoritesPerPage <= index && |FavoriteCoins(data, favorites)| <= index
    ensures var v := RenderFavorites(favorites, data, index);
      && v.cards == []
      && NextDisabled(v.pager) && NextPage(v.pager) == v.pager
      && PrevPage(v.pager).index == index - FavoritesPerPage
  {
  }
}
