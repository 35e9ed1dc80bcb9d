/** The dashboard list of `App.tsx`: the fetched market list, the filtered
    list the grid renders, and the case-insensitive name search between them. */
module Search {
  import opened Seqs
  import opened Coins

  /** Lower-casing of one character, ASCII letters only. */
  function LowerChar(c: char): (r: char)
    ensures !('A' <= r <= 'Z')
    ensures !('A' <= c <= 'Z') ==> r == c
    ensures 'A' <= c <= 'Z' ==> 'a' <= r <= 'z' && r as int - c as int == 32
  {
    if 'A' <= c <= 'Z' then (c as int + 32) as char else c
  }

  /** `toLowerCase` on a string, character by character. */
  function Lower(s: string): (r: string)
    ensures |r| == |s|
    ensures forall k :: 0 <= k < |r| ==> !('A' <= r[k] <= 'Z')
    ensures forall k :: 0 <= k < |s| && !('A' <= s[k] <= 'Z') ==> r[k] == s[k]
    ensures forall k :: 0 <= k < |s| && 'A' <= s[k] <= 'Z' ==> r[k] as int == s[k] as int + 32
  {
    seq(|s|, k requires 0 <= k < |s| => LowerChar(s[k]))
  }

  /** Lower-casing twice is lower-casing once. */
  lemma LowerIdempotent(s: string)
    ensures Lower(Lower(s)) == Lower(s)
  {
  }

  /** `q` occurs in `s` starting at position `i`. */
  ghost predicate OccursAt(s: string, q: string, i: int) {
    0 <= i && i + |q| <= |s| && s[i..i + |q|] == q
  }

  /** `s.includes(q)`: `q` occurs somewhere in `s`, tried from the left. */
  function Includes(s: string, q: string): (r: bool)
    ensures r <==> exists i :: OccursAt(s, q, i)
    decreases |s|
  {
    if |q| > |s| then false
    else if s[..|q|] == q then
      assert OccursAt(s, q, 0);
      true
    else
      OccursLaterIffInTail(s, q);
      Includes(s[1..], q)
  }

  /** When `q` is not a prefix of `s`, it occurs in `s` exactly when it occurs
      in the tail of `s`. */
  lemma OccursLaterIffInTail(s: string, q: string)
    requires |q| <= |s| && s[..|q|] != q
    ensures (exists i :: OccursAt(s, q, i)) <==> (exists i :: OccursAt(s[1..], q, i))
  {
    forall i | OccursAt(s[1..], q, i)
      ensures OccursAt(s, q, i + 1)
    {
      assert s[1..][i..i + |q|] == s[i + 1..i + 1 + |q|];
    }
    forall i | OccursAt(s, q, i)
      ensures i > 0 && OccursAt(s[1..], q, i - 1)
    {
      assert s[1..][i - 1..i - 1 + |q|] == s[i..i + |q|];
    }
  }

  /** The empty string occurs in every string. */
  lemma IncludesEmpty(s: string)
    ensures Includes(s, "")
  {
    assert OccursAt(s, "", 0);
  }

  /** The coin's lower-cased name contains the already lower-cased query. */
  predicate NameMatches(c: Coin, lowerQuery: string) {
    Includes(Lower(c.name), lowerQuery)
  }

  /** The coins whose name contains `lowerQuery`, in list order. */
  function MatchingCoins(coins: seq<Coin>, lowerQuery: string): seq<Coin> {
    Keep(coins, c => NameMatches(c, lowerQuery))
  }

  /** `handleSearch`'s filter: lower-case the query once, keep the coins
      whose lower-cased name contains it, in the order of the list. */
  function SearchFilter(coins: seq<Coin>, query: string): (r: seq<Coin>)
    ensures Subsequence(r, coins)
    ensures forall c :: c in r ==> c in coins && Includes(Lower(c.name), Lower(query))
    ensures forall c :: c in coins && Includes(Lower(c.name), Lower(query)) ==> c in r
    ensures forall c :: c in coins ==>
              multiset(r)[c] == if Includes(Lower(c.name), Lower(query)) then multiset(coins)[c] else 0
  {
    MatchingCoins(coins, Lower(query))
  }

  /** The empty query keeps the whole list, in its order. */
  lemma EmptyQueryKeepsAll(coins: seq<Coin>)
    ensures SearchFilter(coins, "") == coins
  {
    forall c | c in coins
      ensures NameMatches(c, Lower(""))
    {
      IncludesEmpty(Lower(c.name));
    }
    KeepAll(coins, c => NameMatches(c, Lower("")));
  }

  /** Queries that lower-case alike select the same coins. */
  lemma CaseInsensitive(coins: seq<Coin>, q1: string, q2: string)
    requires Lower(q1) == Lower(q2)
    ensures SearchFilter(coins, q1) == SearchFilter(coins, q2)
  {
  }

  /** Searching for the lower-cased query is searching for the query. */
  lemma LowerQuerySameResult(coins: seq<Coin>, q: string)
    ensures SearchFilter(coins, Lower(q)) == SearchFilter(coins, q)
  {
    LowerIdempotent(q);
  }

  /** The state `App` keeps: the fetched list, the list the grid renders, and
      whether the first fetch is still pending. */
  datatype AppState = AppState(cryptoData: seq<Coin>, filteredData: seq<Coin>, loading: bool)

  /** The state at mount: both lists empty, loading, so nothing is rendered,
      and the rendered list is (trivially) drawn from the fetched one. */
  function Initial(): (r: AppState)
    ensures r.loading && r.cryptoData == [] && r.filteredData == []
    ensures Rendered(r).None?
    ensures Subsequence(r.filteredData, r.cryptoData)
  {
    AppState([], [], true)
  }

  /** What the market-list fetch delivered. */
  datatype FetchOutcome = Fetched(data: seq<Coin>) | FetchFailed

  /** The end of `fetchData`: a delivered list replaces both lists; a failure
      leaves them as they were; either way loading stops. */
  function AfterFetch(st: AppState, outcome: FetchOutcome): (r: AppState)
    ensures !r.loading
    ensures outcome.Fetched? ==> r.cryptoData == outcome.data && r.filteredData == outcome.data
    ensures outcome.FetchFailed? ==>
              r.cryptoData == st.cryptoData && r.filteredData == st.filteredData
  {
    match outcome
    case Fetched(data) => AppState(data, data, false)
    case FetchFailed => st.(loading := false)
  }

  /** `handleSearch`: the rendered list becomes the search over the full
      fetched list; nothing else changes. */
  function HandleSearch(st: AppState, query: string): (r: AppState)
    ensures r.cryptoData == st.cryptoData && r.loading == st.loading
    ensures Subsequence(r.filteredData, st.cryptoData)
    ensures forall c :: c in st.cryptoData ==>
              (c in r.filteredData <==> Includes(Lower(c.name), Lower(query)))
    ensures forall c :: c in st.cryptoData ==>
              multiset(r.filteredData)[c] ==
                if Includes(Lower(c.name), Lower(query)) then multiset(st.cryptoData)[c] else 0
  {
    st.(filteredData := SearchFilter(st.cryptoData, query))
  }

  /** What the page shows: the loading message while the first fetch is
      pending, and once it settled the filtered list, not the fetched one. */
  function Rendered(st: AppState): (r: Option<seq<Coin>>)
    ensures r.None? <==> st.loading
    ensures r.Some? ==> r.value == st.filteredData
  {
    if st.loading then None else Some(st.filteredData)
  }

  /** A later search does not depend on an earlier one: it reads the full
      fetched list, not the previous result. */
  lemma SearchForgetsEarlierSearch(st: AppState, q1: string, q2: string)
    ensures HandleSearch(HandleSearch(st, q1), q2) == HandleSearch(st, q2)
  {
  }

  /** After a successful load and before any search the whole list is shown;
      an empty search shows it again. */
  lemma LoadShowsEverything(st: AppState, data: seq<Coin>)
    ensures Rendered(AfterFetch(st, Fetched(data))) == Some(data)
    ensures Rendered(HandleSearch(AfterFetch(st, Fetched(data)), "")) == Some(data)
  {
    EmptyQueryKeepsAll(data);
  }

  /** The user-visible events of the list page. */
  datatype Event = FetchDone(outcome: FetchOutcome) | SearchFor(query: string)

  /** Applies one event. */
  function Apply(st: AppState, e: Event): AppState {
    match e
    case FetchDone(o) => AfterFetch(st, o)
    case SearchFor(q) => HandleSearch(st, q)
  }

  /** Applies events in order. */
  function Replay(st: AppState, es: seq<Event>): AppState
    decreases |es|
  {
    if |es| == 0 then st else Replay(Apply(st, es[0]), es[1..])
  }

  /** Whatever happens from mount, the rendered list is a subsequence of the
      fetched list: the page never shows a coin the fetch did not deliver. */
  lemma {:induction false} RenderedIsSubsequence(st: AppState, es: seq<Event>)
    requires Subsequence(st.filteredData, st.cryptoData)
    ensures Subsequence(Replay(st, es).filteredData, Replay(st, es).cryptoData)
    decreases |es|
  {
    if |es| > 0 {
      var next := Apply(st, es[0]);
      if es[0].FetchDone? && es[0].outcome.Fetched? {
        SubsequenceRefl(es[0].outcome.data);
      }
      RenderedIsSubsequence(next, es[1..]);
    }
  }

  /** The two-coin example: "al" selects Alpha only. */
  lemma AlphaBetaExample()
    ensures var alpha := Coin("a", "Alpha", "", 1.0, 1.0);
      var beta := Coin("b", "Beta", "", 1.0, 1.0);
      SearchFilter([alpha, beta], "al") == [alpha]
  {
    var alpha := Coin("a", "Alpha", "", 1.0, 1.0);
    var beta := Coin("b", "Beta", "", 1.0, 1.0);
    assert Lower("al") == "al";
    AlphaBetaNames();
    MatchingFirstOfTwo(alpha, beta, "al");
  }

  /** Of two coins, only the first matching gives the first alone. */
  lemma MatchingFirstOfTwo(a: Coin, b: Coin, lowerQuery: string)
    requires NameMatches(a, lowerQuery) && !NameMatches(b, lowerQuery)
    ensures MatchingCoins([a, b], lowerQuery) == [a]
  {
    assert [a, b][1..] == [b];
    assert [b][1..] == [];
  }

  /** "Alpha" contains "al" once lower-cased, "Beta" does not. */
  lemma AlphaBetaNames()
    ensures Includes(Lower("Alpha"), "al")
    ensures !Includes(Lower("Beta"), "al")
  {
    assert Lower("Alpha") == "alpha";
    assert OccursAt("alpha", "al", 0);
    assert Lower("Beta") == "beta";
    assert "beta"[..2] == "be" && "beta"[1..] == "eta";
    assert "eta"[..2] == "et" && "eta"[1..] == "ta";
    assert "ta"[..2] == "ta" && "ta"[1..] == "a";
    assert !Includes("a", "al");
  }
}
