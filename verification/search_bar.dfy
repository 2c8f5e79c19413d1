/**
 * The search box over the falla catalogue: every falla is scored against the
 * lower-cased, trimmed query and its words, the fallas that score are sorted
 * by score and then by distance from the user, and the first ten are shown.
 * The box keeps the query, whether the result list is open and the index of
 * the highlighted result, which the arrow keys move.
 */
module SearchBar {
  import opened Wrappers
  import opened Text
  import opened Seqs
  import opened Geo
  import opened Types
  import opened StableSort
  import opened AppStore

  /** A scored falla: `{ falla, score, distance }`. */
  datatype SearchResult = SearchResult(falla: Falla, score: int, distance: real)

  /** `.slice(0, 10)` */
  const MaxResults := 10

  /** `searchQuery.toLowerCase().trim()` */
  function NormalizedQuery(searchQuery: string): string {
    Trim(ToLower(searchQuery))
  }

  /** Every field of a split occurs in the string that was split. */
  lemma {:induction false} SplitFieldsOccur(s: string, c: char)
    ensures forall k :: 0 <= k < |Split(s, c)| ==> Contains(s, Split(s, c)[k])
  {
    JoinSplit(s, c);
    forall k | 0 <= k < |Split(s, c)|
      ensures Contains(s, Split(s, c)[k])
    {
      JoinContains(Split(s, c), [c], k);
    }
  }

  /** `query.split(' ').filter(w => w.length > 0)`: non-empty pieces of the query. */
  function QueryWords(query: string): (ws: seq<string>)
    ensures forall k :: 0 <= k < |ws| ==> |ws[k]| > 0 && Contains(query, ws[k])
    ensures |query| > 0 && query[0] != ' ' ==> |ws| > 0
  {
    SplitFieldsOccur(query, ' ');
    var ws := Filter(Split(query, ' '), (w: string) => |w| > 0);
    assert |query| > 0 && query[0] != ' ' ==> |Split(query, ' ')[0]| > 0;
    ws
  }

  /** `` `${falla.name} ${falla.address || ''}`.toLowerCase() `` */
  function SearchableText(f: Falla): string {
    ToLower(f.name + " " + f.address.GetOr(""))
  }

  /** `words.every(word => text.includes(word))` */
  predicate AllWordsMatch(words: seq<string>, text: string) {
    forall k :: 0 <= k < |words| ==> Contains(text, words[k])
  }

  /** `words.some(word => text.includes(word))` */
  predicate SomeWordMatches(words: seq<string>, text: string) {
    exists k :: 0 <= k < |words| && Contains(text, words[k])
  }

  /** The number of words that occur in the text: ten points each. */
  function MatchCount(words: seq<string>, text: string): (n: nat)
    ensures n <= |words|
    ensures n > 0 <==> SomeWordMatches(words, text)
    ensures n == |words| <==> AllWordsMatch(words, text)
    decreases |words|
  {
    if |words| == 0 then 0
    else
      var rest := MatchCount(words[1..], text);
      assert forall k :: 1 <= k < |words| ==> words[k] == words[1..][k - 1];
      assert SomeWordMatches(words[1..], text) ==> SomeWordMatches(words, text);
      (if Contains(text, words[0]) then 1 else 0) + rest
  }

  /** `falla.name.toLowerCase().split(' ').some(w => w === query)` */
  predicate NameWordIs(name: string, query: string) {
    exists k :: 0 <= k < |Split(ToLower(name), ' ')| && Split(ToLower(name), ' ')[k] == query
  }

  /**
   * The score of a falla for the normalised query and its words: 100 when
   * the name contains the query, 50 when every word occurs in the text, 10
   * per word that does, 30 when the name starts with the query and 25 when
   * a word of the name is the query; so it lies in [0, 205 + 10 * #words].
   */
  function Score(f: Falla, query: string, words: seq<string>): (r: int)
    ensures 0 <= r <= 205 + 10 * |words|
    ensures Contains(ToLower(f.name), query) ==> r >= 100
    ensures r == 0 ==> !Contains(ToLower(f.name), query) && !SomeWordMatches(words, SearchableText(f))
  {
    var name := ToLower(f.name);
    var text := SearchableText(f);
    (if Contains(name, query) then 100 else 0)
    + (if AllWordsMatch(words, text) then 50 else 0)
    + 10 * MatchCount(words, text)
    + (if StartsWith(name, query) then 30 else 0)
    + (if NameWordIs(f.name, query) then 25 else 0)
  }

  /** The lower-cased name is a prefix of the searchable text. */
  lemma {:induction false} NameInSearchable(f: Falla, query: string)
    requires Contains(ToLower(f.name), query)
    ensures Contains(SearchableText(f), query)
  {
    ToLowerConcat(f.name, " " + f.address.GetOr(""));
    assert f.name + " " + f.address.GetOr("") == f.name + (" " + f.address.GetOr(""));
    ContainsInPrefix(ToLower(f.name), ToLower(" " + f.address.GetOr("")), query);
  }

  /**
   * When the query has words and each occurs in the query, a falla scores
   * exactly when one of the words occurs in its searchable text: every bonus
   * for the whole query brings a word along with it.
   */
  lemma {:induction false} ScorePositive(f: Falla, query: string, words: seq<string>)
    requires |words| > 0
    requires forall k :: 0 <= k < |words| ==> Contains(query, words[k])
    ensures Score(f, query, words) > 0 <==> SomeWordMatches(words, SearchableText(f))
  {
    var name := ToLower(f.name);
    var text := SearchableText(f);
    if Score(f, query, words) > 0 && !SomeWordMatches(words, text) {
      assert !AllWordsMatch(words, text);
      if StartsWith(name, query) {
        StartsWithContains(name, query);
      }
      if NameWordIs(f.name, query) {
        SplitFieldsOccur(name, ' ');
      }
      assert Contains(name, query);
      NameInSearchable(f, query);
      ContainsTransitive(text, query, words[0]);
      assert false;
    }
  }

  /** The result record of one falla. */
  function Scored(f: Falla, query: string, words: seq<string>, user: Coord, dist: Distance): (r: SearchResult)
    ensures r.falla == f && r.distance == dist(user, f.Position())
  {
    SearchResult(f, Score(f, query, words), dist(user, f.Position()))
  }

  /** Score first, higher first; then distance, nearer first. */
  function ResultRank(r: SearchResult): Rank {
    Rank(r.score, r.distance)
  }

  /** `fallasData.map(...)`: every falla with its score and distance. */
  function ScoredAll(data: seq<Falla>, query: string, words: seq<string>, user: Coord, dist: Distance): (r: seq<SearchResult>)
    ensures |r| == |data|
    ensures forall k :: 0 <= k < |data| ==> r[k] == Scored(data[k], query, words, user, dist)
  {
    seq(|data|, k requires 0 <= k < |data| => Scored(data[k], query, words, user, dist))
  }

  /** `result.score > 0` */
  predicate Positive(r: SearchResult) {
    r.score > 0
  }

  /** The scored fallas that score, in catalogue order: `.map(...).filter(r => r.score > 0)`. */
  function Matches(searchQuery: string, data: seq<Falla>, user: Coord, dist: Distance): (ms: seq<SearchResult>)
    ensures forall k :: 0 <= k < |ms| ==> ms[k].score > 0 && ms[k].falla in data
  {
    var query := NormalizedQuery(searchQuery);
    Filter(ScoredAll(data, query, QueryWords(query), user, dist), Positive)
  }

  /** A falla of the catalogue is among the kept results exactly when it scores. */
  lemma {:induction false} KeptIffScores(data: seq<Falla>, query: string, words: seq<string>, user: Coord, dist: Distance, f: Falla)
    requires f in data
    ensures (exists r :: r in Filter(ScoredAll(data, query, words, user, dist), Positive) && r.falla == f)
            <==> Score(f, query, words) > 0
  {
    var scored := ScoredAll(data, query, words, user, dist);
    var kept := Filter(scored, Positive);
    var i :| 0 <= i < |data| && data[i] == f;
    if Score(f, query, words) > 0 {
      assert scored[i] in kept && scored[i].falla == f;
    }
    if exists r :: r in kept && r.falla == f {
      var r :| r in kept && r.falla == f;
      var j :| 0 <= j < |scored| && scored[j] == r;
      assert r == Scored(f, query, words, user, dist);
    }
  }

  /** `searchResults`: empty for a blank query, else the first ten matches in rank order. */
  function SearchResults(searchQuery: string, data: seq<Falla>, user: Coord, dist: Distance): (rs: seq<SearchResult>)
    ensures |rs| <= MaxResults
    ensures Trim(searchQuery) == "" ==> rs == []
  {
    if Trim(searchQuery) == "" then []
    else
      var sorted := Sort(Matches(searchQuery, data, user, dist), ResultRank);
      if |sorted| <= MaxResults then sorted else sorted[..MaxResults]
  }

  /**
   * For a query that is not blank, the matches are exactly the fallas of the
   * catalogue one of whose query words occurs in their searchable text.
   */
  lemma {:induction false} MatchesAreWordHits(searchQuery: string, data: seq<Falla>, user: Coord, dist: Distance, f: Falla)
    requires Trim(searchQuery) != ""
    requires f in data
    ensures var query := NormalizedQuery(searchQuery);
            (exists r :: r in Matches(searchQuery, data, user, dist) && r.falla == f)
            <==> SomeWordMatches(QueryWords(query), SearchableText(f))
  {
    var query := NormalizedQuery(searchQuery);
    var words := QueryWords(query);
    TrimToLowerBlank(searchQuery);
    KeptIffScores(data, query, words, user, dist, f);
    ScorePositive(f, query, words);
  }

  /** A prefix of an ordered sequence is ordered. */
  lemma {:induction false} PrefixOrdered<T>(s: seq<T>, n: nat, rank: T -> Rank)
    requires Ordered(s, rank) && n <= |s|
    ensures Ordered(s[..n], rank)
  {
    assert forall i :: 0 <= i < n ==> s[..n][i] == s[i];
  }

  /** The first n of a stable sort come in rank order and are elements of the input. */
  lemma {:induction false} SortedPrefix<T>(s: seq<T>, rank: T -> Rank, n: nat)
    requires n <= |s|
    ensures Ordered(Sort(s, rank)[..n], rank)
    ensures forall k :: 0 <= k < n ==> Sort(s, rank)[k] in s
  {
    var sorted := Sort(s, rank);
    SortOrdered(s, rank);
    PrefixOrdered(sorted, n, rank);
    forall k | 0 <= k < n
      ensures sorted[k] in s
    {
      assert sorted[k] in multiset(sorted);
    }
  }

  /**
   * The results are the first min(10, #matches) of the stable sort of the
   * matches, they come in rank order, and every one of them is a match.
   */
  lemma {:induction false} ResultsAreTopMatches(searchQuery: string, data: seq<Falla>, user: Coord, dist: Distance)
    requires Trim(searchQuery) != ""
    ensures var sorted := Sort(Matches(searchQuery, data, user, dist), ResultRank);
            var rs := SearchResults(searchQuery, data, user, dist);
            |rs| == (if |sorted| <= MaxResults then |sorted| else MaxResults)
            && rs == sorted[..|rs|]
            && Ordered(rs, ResultRank)
            && forall k :: 0 <= k < |rs| ==> rs[k] in Matches(searchQuery, data, user, dist)
  {
    var ms := Matches(searchQuery, data, user, dist);
    var sorted := Sort(ms, ResultRank);
    var n := if |sorted| <= MaxResults then |sorted| else MaxResults;
    assert SearchResults(searchQuery, data, user, dist) == sorted[..n];
    SortedPrefix(ms, ResultRank, n);
  }

  /**
   * Results of equal score and distance keep the catalogue order: the
   * results of one rank are the first ones of that rank among the matches.
   */
  lemma {:induction false} EqualRanksKeepOrder(searchQuery: string, data: seq<Falla>, user: Coord, dist: Distance, k: Rank)
    requires Trim(searchQuery) != ""
    ensures var ms := Matches(searchQuery, data, user, dist);
            WithRank(Sort(ms, ResultRank), ResultRank, k) == WithRank(ms, ResultRank, k)
  {
    SortStable(Matches(searchQuery, data, user, dist), ResultRank, k);
  }

  /** The keys the search box reacts to; any other key is `Other`. */
  datatype Key = ArrowDown | ArrowUp | Enter | Escape | Other

  /** The index the arrow keys move to among n results. */
  function MovedIndex(key: Key, index: int, n: nat): (r: int)
    requires key == ArrowDown || key == ArrowUp
    ensures key == ArrowDown ==> r == if index < n - 1 then index + 1 else index
    ensures key == ArrowUp ==> r == if index > 0 then index - 1 else -1
    ensures -1 <= index < n ==> -1 <= r < n
  {
    if key == ArrowDown then (if index < n - 1 then index + 1 else index)
    else if index > 0 then index - 1 else -1
  }

  /** Pressing ArrowUp often enough always leaves nothing highlighted. */
  lemma {:induction false} ArrowUpReachesNone(index: int, n: nat, presses: nat)
    requires -1 <= index < n && presses > index
    ensures UpTimes(index, n, presses) == -1
    decreases presses
  {
    if presses > 1 {
      ArrowUpReachesNone(MovedIndex(ArrowUp, index, n), n, presses - 1);
    }
  }

  /** The index after pressing ArrowUp the given number of times. */
  function UpTimes(index: int, n: nat, presses: nat): int
    decreases presses
  {
    if presses == 0 then index else UpTimes(MovedIndex(ArrowUp, index, n), n, presses - 1)
  }

  /** The icon shown for a category name, with a palette for any other. */
  function CategoryIcon(category: string): (icon: string)
    ensures |icon| > 0
  {
    match category
    case "Especial" => "\U{1F451}"
    case "Primera" => "\U{1F947}"
    case "Segunda" => "\U{1F948}"
    case "Tercera" => "\U{1F949}"
    case "Cuarta" => "\U{1F3C5}"
    case "Quinta" => "\U{1F396}\U{FE0F}"
    case "Sexta" => "\U{1F397}\U{FE0F}"
    case "S\U{E9}ptima" => "\U{1F3F5}\U{FE0F}"
    case "Octava" => "\U{1F31F}"
    case "Novena" => "\U{2B50}"
    case "Infantil Especial" => "\U{1F476}\U{1F451}"
    case "I+E y Corona" => "\U{1F338}"
    case _ => "\U{1F3A8}"
  }

  /** The palette icon of a category the table does not know. */
  const DefaultIcon := "\U{1F3A8}"

  /**
   * Of the category names a falla can carry, the four section categories get
   * a medal or crown and every other one gets the palette.
   */
  lemma {:induction false} CategoryIcons(c: Category)
    ensures CategoryIcon(c.Name()) == DefaultIcon <==> c !in {Especial, Primera, Segunda, Tercera}
    ensures c == Especial ==> CategoryIcon(c.Name()) == "\U{1F451}"
  {
  }

  /** The search box: its query, whether its list is open and the highlighted result. */
  class SearchBox {
    var searchQuery: string
    var isOpen: bool
    var selectedIndex: int
    const data: seq<Falla>
    const dist: Distance
    const store: AppStore

    constructor(data: seq<Falla>, dist: Distance, store: AppStore)
      ensures this.data == data && this.dist == dist && this.store == store
      ensures searchQuery == "" && !isOpen && selectedIndex == -1
    {
      this.data := data;
      this.dist := dist;
      this.store := store;
      searchQuery := "";
      isOpen := false;
      selectedIndex := -1;
    }

    /** The results for the current query and the user's current location. */
    function Results(): seq<SearchResult>
      reads this, store
    {
      SearchResults(searchQuery, data, store.userLocation, dist)
    }

    /** The highlighted index names a result or nothing. */
    predicate IndexInRange()
      reads this, store
    {
      -1 <= selectedIndex < |Results()|
    }

    /** `handleSelectFalla`: the falla is selected in the store and the box is reset. */
    method SelectFalla(f: Falla)
      modifies this, store
      ensures store.State() == old(store.State()).(selectedFalla := Some(f), isPanelOpen := true)
      ensures !isOpen && searchQuery == "" && selectedIndex == -1
      ensures IndexInRange()
    {
      store.SetSelectedFalla(Some(f));
      store.SetIsPanelOpen(true);
      isOpen := false;
      searchQuery := "";
      selectedIndex := -1;
    }

    /** `handleInputChange`: typing opens the list and clears the highlight. */
    method InputChange(value: string)
      modifies this
      ensures searchQuery == value && isOpen && selectedIndex == -1
      ensures IndexInRange()
    {
      searchQuery := value;
      isOpen := true;
      selectedIndex := -1;
    }

    /** `handleClear` */
    method Clear()
      modifies this
      ensures searchQuery == "" && !isOpen && selectedIndex == -1
      ensures IndexInRange()
    {
      searchQuery := "";
      isOpen := false;
      selectedIndex := -1;
    }

    /** A mouse press outside the box closes the list and clears the highlight. */
    method ClickOutside()
      modifies this
      ensures searchQuery == old(searchQuery) && !isOpen && selectedIndex == -1
    {
      isOpen := false;
      selectedIndex := -1;
    }

    /** Focusing the input reopens the list of a query that is not blank. */
    method Focus()
      modifies this
      ensures searchQuery == old(searchQuery) && selectedIndex == old(selectedIndex)
      ensures isOpen == (old(isOpen) || Trim(searchQuery) != "")
    {
      if Trim(searchQuery) != "" {
        isOpen := true;
      }
    }

    /** The pointer over the result at `index` highlights it. */
    method MouseEnter(index: nat)
      modifies this
      ensures searchQuery == old(searchQuery) && isOpen == old(isOpen) && selectedIndex == index
    {
      selectedIndex := index;
    }

    /** `handleKeyDown` */
    method KeyDown(key: Key)
      modifies this, store
      ensures old(!isOpen || |Results()| == 0) ==>
                searchQuery == old(searchQuery) && selectedIndex == old(selectedIndex)
                && isOpen == (old(isOpen) || (key == Enter && Trim(searchQuery) != ""))
                && store.State() == old(store.State())
      ensures old(isOpen && |Results()| > 0) && (key == ArrowDown || key == ArrowUp) ==>
                searchQuery == old(searchQuery) && isOpen
                && selectedIndex == MovedIndex(key, old(selectedIndex), old(|Results()|))
                && store.State() == old(store.State())
      ensures old(isOpen && |Results()| > 0) && key == Enter ==>
                if old(0 <= selectedIndex < |Results()|) then
                  store.State() == old(store.State()).(selectedFalla := Some(old(Results()[selectedIndex].falla)), isPanelOpen := true)
                  && !isOpen && searchQuery == "" && selectedIndex == -1
                else
                  searchQuery == old(searchQuery) && isOpen == old(isOpen)
                  && selectedIndex == old(selectedIndex) && store.State() == old(store.State())
      ensures old(isOpen && |Results()| > 0) && key == Escape ==>
                searchQuery == old(searchQuery) && !isOpen && selectedIndex == -1
                && store.State() == old(store.State())
      ensures old(isOpen && |Results()| > 0) && key == Other ==>
                searchQuery == old(searchQuery) && isOpen && selectedIndex == old(selectedIndex)
                && store.State() == old(store.State())
      ensures store.userLocation == old(store.userLocation)
      ensures old(IndexInRange()) ==> IndexInRange()
    {
      var results := Results();
      if !isOpen || |results| == 0 {
        if key == Enter && Trim(searchQuery) != "" {
          isOpen := true;
        }
        return;
      }
      match key
      case ArrowDown =>
        selectedIndex := MovedIndex(key, selectedIndex, |results|);
      case ArrowUp =>
        selectedIndex := MovedIndex(key, selectedIndex, |results|);
      case Enter =>
        if 0 <= selectedIndex < |results| {
          SelectFalla(results[selectedIndex].falla);
        }
      case Escape =>
        isOpen := false;
        selectedIndex := -1;
      case Other =>
    }
  }
}
