/** The statistics of src/pages/StatsPage.tsx (the `stats` memo): counts, the
    average rating, the genre and year histograms, the half-star rating
    distribution and the top-rated list, all computed from the library rows. */
module StatsPage {
  import opened Opt
  import opened Strings
  import opened Seqs
  import opened Types
  import opened RatingStars

  predicate IsWatched(i: MediaItem) { i.status == Watched }
  predicate IsWatchlist(i: MediaItem) { i.status == Watchlist }
  predicate IsMovie(i: MediaItem) { i.mediaType == Movie }
  predicate IsShow(i: MediaItem) { i.mediaType == Tv }

  /** `i.user_rating != null && i.user_rating > 0` */
  predicate IsRated(i: MediaItem) {
    i.userRating.Some? && i.userRating.value > 0.0
  }

  /** `i.user_rating || 0` */
  function RatingOrZero(i: MediaItem): real {
    i.userRating.GetOr(0.0)
  }

  // ---------------------------------------------------------------------
  // Counts and the average
  // ---------------------------------------------------------------------

  /** Every item is watched or on the watchlist, and every watched item is a movie
      or a show. */
  lemma CountsAddUp(items: seq<MediaItem>)
    ensures |Filter(items, IsWatched)| + |Filter(items, IsWatchlist)| == |items|
    ensures var w := Filter(items, IsWatched);
      |Filter(w, IsMovie)| + |Filter(w, IsShow)| == |w|
  {
    FilterComplement(items, IsWatched, IsWatchlist);
    FilterComplement(Filter(items, IsWatched), IsMovie, IsShow);
  }

  /** `rated.reduce((sum, i) => sum + (i.user_rating || 0), 0) / rated.length`, or 0. */
  function Average(rated: seq<MediaItem>): real {
    if |rated| > 0 then SumBy(rated, RatingOrZero) / |rated| as real else 0.0
  }

  /** The smallest rating in a non-empty list. */
  function MinRating(s: seq<MediaItem>): (m: real)
    requires |s| > 0
    ensures forall i :: 0 <= i < |s| ==> m <= RatingOrZero(s[i])
    ensures exists i :: 0 <= i < |s| && m == RatingOrZero(s[i])
    decreases |s|
  {
    if |s| == 1 then RatingOrZero(s[0])
    else
      var m := MinRating(s[..|s| - 1]);
      assert forall i :: 0 <= i < |s| - 1 ==> s[..|s| - 1][i] == s[i];
      if RatingOrZero(s[|s| - 1]) < m then RatingOrZero(s[|s| - 1]) else m
  }

  /** The largest rating in a non-empty list. */
  function MaxRating(s: seq<MediaItem>): (m: real)
    requires |s| > 0
    ensures forall i :: 0 <= i < |s| ==> RatingOrZero(s[i]) <= m
    ensures exists i :: 0 <= i < |s| && m == RatingOrZero(s[i])
    decreases |s|
  {
    if |s| == 1 then RatingOrZero(s[0])
    else
      var m := MaxRating(s[..|s| - 1]);
      assert forall i :: 0 <= i < |s| - 1 ==> s[..|s| - 1][i] == s[i];
      if RatingOrZero(s[|s| - 1]) > m then RatingOrZero(s[|s| - 1]) else m
  }

  /** A quotient of a sum bounded by `n*lo` and `n*hi` by `n` lies in [lo, hi]. */
  lemma QuotientBounds(sum: real, n: real, lo: real, hi: real)
    requires n > 0.0
    requires n * lo <= sum <= n * hi
    ensures lo <= sum / n <= hi
  {
    var q := sum / n;
    assert q * n == sum;
    assert n * (q - lo) >= 0.0;
    assert n * (hi - q) >= 0.0;
  }

  /** The average of a non-empty list lies between its smallest and largest rating. */
  lemma AverageBetweenMinAndMax(rated: seq<MediaItem>)
    requires |rated| > 0
    ensures MinRating(rated) <= Average(rated) <= MaxRating(rated)
  {
    AverageWithin(rated, MinRating(rated), MaxRating(rated));
  }

  /** The average of ratings that all lie in [lo, hi] lies there too. */
  lemma AverageWithin(rated: seq<MediaItem>, lo: real, hi: real)
    requires |rated| > 0
    requires forall i :: 0 <= i < |rated| ==> lo <= RatingOrZero(rated[i]) <= hi
    ensures lo <= Average(rated) <= hi
  {
    SumByBounds(rated, RatingOrZero, lo, hi);
    QuotientBounds(SumBy(rated, RatingOrZero), |rated| as real, lo, hi);
  }

  // ---------------------------------------------------------------------
  // Insertion-ordered counters (`Record<string, number>`)
  // ---------------------------------------------------------------------

  /** A counting object: its keys in insertion order, which is the order
      `Object.entries` lists them in, and the count of each. */
  datatype Tally = Tally(keys: seq<string>, count: map<string, nat>)

  function EmptyTally(): Tally {
    Tally([], map[])
  }

  /** `t[k] || 0` */
  function CountOf(t: Tally, k: string): nat {
    if k in t.count then t.count[k] else 0
  }

  /** `t[k] = (t[k] || 0) + 1` */
  function Bump(t: Tally, k: string): Tally {
    if k in t.count then Tally(t.keys, t.count[k := t.count[k] + 1])
    else Tally(t.keys + [k], t.count[k := 1])
  }

  /** Bumping each of `ks` in turn. */
  function BumpAll(t: Tally, ks: seq<string>): Tally
    decreases |ks|
  {
    if ks == [] then t else Bump(BumpAll(t, ks[..|ks| - 1]), ks[|ks| - 1])
  }

  /** The keys are distinct and are exactly the counted strings, each counted at
      least once. */
  ghost predicate TallyWF(t: Tally) {
    && (forall i :: 0 <= i < |t.keys| ==> t.keys[i] in t.count)
    && (forall k :: k in t.count ==> k in t.keys && t.count[k] >= 1)
    && (forall i, j :: 0 <= i < j < |t.keys| ==> t.keys[i] != t.keys[j])
  }

  lemma BumpCounts(t: Tally, k: string)
    requires TallyWF(t)
    ensures TallyWF(Bump(t, k))
    ensures forall x :: CountOf(Bump(t, k), x) == CountOf(t, x) + (if x == k then 1 else 0)
  {
  }

  /** Bumping a list of strings counts each as often as it occurs there. */
  lemma {:induction false} BumpAllCounts(t: Tally, ks: seq<string>)
    requires TallyWF(t)
    ensures TallyWF(BumpAll(t, ks))
    ensures forall x :: CountOf(BumpAll(t, ks), x) == CountOf(t, x) + multiset(ks)[x]
    decreases |ks|
  {
    if ks != [] {
      var init, last := ks[..|ks| - 1], ks[|ks| - 1];
      BumpAllCounts(t, init);
      BumpCounts(BumpAll(t, init), last);
      assert ks == init + [last];
    }
  }

  /** `Object.entries(t)` */
  function Entries(t: Tally): (e: seq<(string, nat)>)
    requires forall i :: 0 <= i < |t.keys| ==> t.keys[i] in t.count
    ensures |e| == |t.keys|
    ensures forall i :: 0 <= i < |e| ==> e[i] == (t.keys[i], t.count[t.keys[i]])
  {
    seq(|t.keys|, i requires 0 <= i < |t.keys| => (t.keys[i], t.count[t.keys[i]]))
  }

  /** Every entry names a counted string with its count. */
  lemma EntryIsCount(t: Tally, x: (string, nat))
    requires TallyWF(t)
    requires x in multiset(Entries(t))
    ensures x.0 in t.count && x.1 == CountOf(t, x.0) && x.1 >= 1
  {
    var e := Entries(t);
    var i :| 0 <= i < |e| && e[i] == x;
  }

  /** `.sort((a, b) => b[1] - a[1])` */
  predicate CountDesc(a: (string, nat), b: (string, nat)) {
    a.1 >= b.1
  }

  // ---------------------------------------------------------------------
  // Genres
  // ---------------------------------------------------------------------

  function TrimEach(parts: seq<string>): (r: seq<string>)
    ensures |r| == |parts|
    ensures forall i :: 0 <= i < |r| ==> r[i] == Trim(parts[i])
  {
    seq(|parts|, i requires 0 <= i < |parts| => Trim(parts[i]))
  }

  predicate NonEmpty(s: string) {
    s != ""
  }

  /** `item.genres.split(",").map(s => s.trim()).filter(Boolean)`, for a truthy
      `genres`; nothing for an empty one. */
  function GenreTokens(genres: string): seq<string> {
    if genres == "" then [] else Filter(TrimEach(Split(genres, ',')), NonEmpty)
  }

  /** Trimming keeps a character out of a string that does not hold it. */
  lemma TrimLacks(s: string, c: char)
    requires forall i :: 0 <= i < |s| ==> s[i] != c
    ensures forall i :: 0 <= i < |Trim(s)| ==> Trim(s)[i] != c
  {
    var a, r := LeadingSpace(s, 0), Trim(s);
    forall i | 0 <= i < |r| ensures r[i] != c {
      assert r[i] == s[a..a + |r|][i] == s[a + i];
    }
  }

  /** Genre tokens are non-empty, trimmed, and hold no comma. */
  lemma GenreTokenShape(genres: string, g: string)
    requires g in GenreTokens(genres)
    ensures g != "" && Trim(g) == g
    ensures forall i :: 0 <= i < |g| ==> g[i] != ','
  {
    var parts := Split(genres, ',');
    var trimmed := TrimEach(parts);
    FilterMembers(trimmed, NonEmpty, g);
    var k :| 0 <= k < |trimmed| && trimmed[k] == g;
    TrimIdempotent(parts[k]);
    TrimLacks(parts[k], ',');
  }

  /** Every genre token of every watched item, with repetitions. */
  function GenreBag(watched: seq<MediaItem>): multiset<string>
    decreases |watched|
  {
    if watched == [] then multiset{}
    else GenreBag(watched[..|watched| - 1]) + multiset(GenreTokens(watched[|watched| - 1].genres))
  }

  /** `genreCounts` after the first `|watched|` items. */
  function GenreTally(watched: seq<MediaItem>): Tally
    decreases |watched|
  {
    if watched == [] then EmptyTally()
    else BumpAll(GenreTally(watched[..|watched| - 1]), GenreTokens(watched[|watched| - 1].genres))
  }

  /** Each watched item adds one to the count of each of its genre tokens. */
  lemma {:induction false} GenreTallyCounts(watched: seq<MediaItem>)
    ensures TallyWF(GenreTally(watched))
    ensures forall g :: CountOf(GenreTally(watched), g) == GenreBag(watched)[g]
    decreases |watched|
  {
    if watched != [] {
      var init := watched[..|watched| - 1];
      GenreTallyCounts(init);
      BumpAllCounts(GenreTally(init), GenreTokens(watched[|watched| - 1].genres));
    }
  }

  /** The genre loop: `for (const item of watched) ... genreCounts[g] = ...`. */
  method CountGenres(watched: seq<MediaItem>) returns (t: Tally)
    ensures t == GenreTally(watched)
  {
    t := EmptyTally();
    for i := 0 to |watched|
      invariant t == GenreTally(watched[..i])
    {
      assert watched[..i + 1][..i] == watched[..i];
      var tokens := GenreTokens(watched[i].genres);
      if watched[i].genres != "" {
        ghost var t0 := t;
        for j := 0 to |tokens|
          invariant t == BumpAll(t0, tokens[..j])
        {
          assert tokens[..j + 1][..j] == tokens[..j];
          t := Bump(t, tokens[j]);
        }
        assert tokens[..|tokens|] == tokens;
      }
    }
    assert watched[..|watched|] == watched;
  }

  /** `Object.entries(genreCounts).sort(...)`, before the slice. */
  function GenreRanking(watched: seq<MediaItem>): seq<(string, nat)> {
    GenreTallyCounts(watched);
    SortBy(Entries(GenreTally(watched)), CountDesc)
  }

  /** `Object.entries(genreCounts).sort(...).slice(0, 10)` */
  function GenreEntries(watched: seq<MediaItem>): seq<(string, nat)> {
    Take(GenreRanking(watched), 10)
  }

  /** `genreEntries.length > 0 ? genreEntries[0][1] : 1` */
  function MaxGenreCount(entries: seq<(string, nat)>): nat {
    if |entries| > 0 then entries[0].1 else 1
  }

  /** Every counted string has its entry. */
  lemma EntriesComplete(t: Tally)
    requires TallyWF(t)
    ensures forall k :: k in t.count ==> (k, t.count[k]) in multiset(Entries(t))
  {
    forall k | k in t.count ensures (k, t.count[k]) in multiset(Entries(t)) {
      var i :| 0 <= i < |t.keys| && t.keys[i] == k;
      assert Entries(t)[i] == (k, t.count[k]);
    }
  }

  /** The first `n` entries of a tally in the order `le`: the first min(n, keys) of
      the sorted entries, sorted, each a counted string with its count, and no entry
      left out may stay in front of one kept. */
  lemma TopEntries(t: Tally, le: ((string, nat), (string, nat)) -> bool, n: nat)
    requires TallyWF(t) && TotalPreorder(le)
    ensures var all := SortBy(Entries(t), le);
      var e := Take(all, n);
      && |all| == |t.keys|
      && |e| == (if |t.keys| <= n then |t.keys| else n)
      && e == all[..|e|]
      && Sorted(e, le)
      && (forall i, j :: 0 <= i < |e| <= j < |all| ==> le(e[i], all[j]))
      && forall i :: 0 <= i < |e| ==> e[i].0 in t.count && e[i].1 == CountOf(t, e[i].0) && e[i].1 >= 1
  {
    var sorted := SortBy(Entries(t), le);
    SortBySorted(Entries(t), le);
    TakeSorted(sorted, n, le);
    var e := Take(sorted, n);
    forall i | 0 <= i < |e| ensures e[i].0 in t.count && e[i].1 == CountOf(t, e[i].0) && e[i].1 >= 1 {
      assert e[i] == sorted[i];
      assert e[i] in multiset(sorted);
      EntryIsCount(t, e[i]);
    }
  }

  /** Every genre that occurs has its entry, with its number of occurrences, in the
      sorted list the page slices. */
  lemma GenreRankingComplete(watched: seq<MediaItem>)
    ensures forall g :: GenreBag(watched)[g] > 0 ==> (g, GenreBag(watched)[g]) in multiset(GenreRanking(watched))
  {
    var t := GenreTally(watched);
    GenreTallyCounts(watched);
    EntriesComplete(t);
    forall g | GenreBag(watched)[g] > 0 ensures (g, GenreBag(watched)[g]) in multiset(GenreRanking(watched)) {
      assert CountOf(t, g) > 0;
    }
  }

  /** The ten most frequent genres, most frequent first, each with its number of
      occurrences: the first min(10, genres) of the sorted list, and no genre left out
      occurs more often than one kept. The largest count is the first one's, or 1 when
      there are none. */
  lemma GenreEntriesSpec(watched: seq<MediaItem>)
    ensures var all := GenreRanking(watched);
      var e := GenreEntries(watched);
      && |e| == (if |all| <= 10 then |all| else 10)
      && e == all[..|e|]
      && Sorted(e, CountDesc)
      && (forall i, j :: 0 <= i < |e| <= j < |all| ==> all[j].1 <= e[i].1)
      && (forall i :: 0 <= i < |e| ==> e[i].1 == GenreBag(watched)[e[i].0] && e[i].1 >= 1)
      && (|e| == 0 ==> MaxGenreCount(e) == 1)
      && (|e| > 0 ==> MaxGenreCount(e) == e[0].1 && forall i :: 0 <= i < |e| ==> e[i].1 <= e[0].1)
  {
    var t := GenreTally(watched);
    GenreTallyCounts(watched);
    TopEntries(t, CountDesc, 10);
    var all := GenreRanking(watched);
    var e := GenreEntries(watched);
    assert all == SortBy(Entries(t), CountDesc) && e == Take(all, 10);
    forall i, j | 0 <= i < |e| <= j < |all| ensures all[j].1 <= e[i].1 {
      assert CountDesc(e[i], all[j]);
    }
    forall i | 0 <= i < |e| ensures e[i].1 <= e[0].1 {
      if i > 0 {
        assert CountDesc(e[0], e[i]);
      }
    }
  }

  // ---------------------------------------------------------------------
  // The half-star rating distribution
  // ---------------------------------------------------------------------

  /** Half steps 1..n, as ratings. */
  function HalfSteps(n: nat): set<real> {
    set k | 1 <= k <= n :: HalfStep(k)
  }

  /** The keys `for (let r = 0.5; r <= 5; r += 0.5)` creates. */
  function RatingKeys(): set<real> {
    HalfSteps(10)
  }

  /** How many of `rated` have exactly rating `key`. */
  function CountRating(rated: seq<MediaItem>, key: real): nat
    decreases |rated|
  {
    if rated == [] then 0
    else CountRating(rated[..|rated| - 1], key) + (if rated[|rated| - 1].userRating == Some(key) then 1 else 0)
  }

  function RatingDist(rated: seq<MediaItem>): map<real, nat> {
    map key | key in RatingKeys() :: CountRating(rated, key)
  }

  /** The first loop: every half step from 0.5 to 5 starts at 0. */
  method ZeroKeys() returns (dist: map<real, nat>)
    ensures dist.Keys == RatingKeys()
    ensures forall key :: key in dist ==> dist[key] == 0
  {
    dist := map[];
    var r := 0.5;
    ghost var k := 1;
    while r <= 5.0
      invariant 1 <= k <= 11 && r == HalfStep(k)
      invariant dist.Keys == HalfSteps(k - 1)
      invariant forall key :: key in dist ==> dist[key] == 0
      decreases 11 - k
    {
      assert HalfSteps(k) == HalfSteps(k - 1) + {HalfStep(k)};
      dist := dist[r := 0];
      r := r + 0.5;
      k := k + 1;
    }
  }

  /** The two loops that fill `ratingDist`. */
  method RatingDistribution(rated: seq<MediaItem>) returns (dist: map<real, nat>)
    ensures dist == RatingDist(rated)
  {
    dist := ZeroKeys();
    for i := 0 to |rated|
      invariant dist.Keys == RatingKeys()
      invariant forall key :: key in dist ==> dist[key] == CountRating(rated[..i], key)
    {
      assert rated[..i + 1][..i] == rated[..i];
      var r := rated[i].userRating.GetOr(0.0);
      if r in dist {
        dist := dist[r := dist[r] + 1];
      }
      forall key | key in dist ensures dist[key] == CountRating(rated[..i + 1], key) {
        if key == r {
          assert rated[i].userRating == Some(key) || rated[i].userRating.None?;
        }
      }
    }
    assert rated[..|rated|] == rated;
  }

  /** The counts of the distribution, half step by half step. */
  function DistCounts(rated: seq<MediaItem>): (c: seq<nat>)
    ensures |c| == 10
    ensures forall i :: 0 <= i < 10 ==> c[i] == CountRating(rated, HalfStep(i + 1))
  {
    seq(10, i requires 0 <= i < 10 => CountRating(rated, HalfStep(i + 1)))
  }

  /** The i-th count is the distribution's count of the i-th half step. */
  lemma DistCountsAreDist(rated: seq<MediaItem>)
    ensures forall i :: 0 <= i < 10 ==>
      HalfStep(i + 1) in RatingDist(rated) && RatingDist(rated)[HalfStep(i + 1)] == DistCounts(rated)[i]
  {
  }

  /** `Math.max(...Object.values(ratingDist), 1)` */
  function MaxRatingCount(rated: seq<MediaItem>): (m: nat)
    ensures m >= 1
    ensures forall key :: key in RatingDist(rated) ==> RatingDist(rated)[key] <= m
    ensures m == 1 || exists key :: key in RatingDist(rated) && RatingDist(rated)[key] == m
  {
    var c := DistCounts(rated);
    var m := MaxWith(c, 1);
    assert forall k :: 1 <= k <= 10 ==> CountRating(rated, HalfStep(k)) == c[k - 1];
    DistCountsAreDist(rated);
    m
  }

  /** The number of ratings among the first `n` half steps. */
  function SumCounts(rated: seq<MediaItem>, n: nat): nat {
    if n == 0 then 0 else SumCounts(rated, n - 1) + CountRating(rated, HalfStep(n))
  }

  /** Whether an item's rating is among the first `n` half steps: 0 or 1. */
  function Hits(item: MediaItem, n: nat): nat {
    if n == 0 then 0 else Hits(item, n - 1) + (if item.userRating == Some(HalfStep(n)) then 1 else 0)
  }

  lemma {:induction false} HitsAtMostOne(item: MediaItem, n: nat)
    ensures Hits(item, n) <= 1
    ensures Hits(item, n) == 1 <==> exists k :: 1 <= k <= n && item.userRating == Some(HalfStep(k))
  {
    if n > 0 {
      HitsAtMostOne(item, n - 1);
      if item.userRating == Some(HalfStep(n)) {
        forall k | 1 <= k < n ensures item.userRating != Some(HalfStep(k)) {
          assert HalfStep(k) < HalfStep(n);
        }
      }
    }
  }

  lemma {:induction false} SumCountsStep(rated: seq<MediaItem>, n: nat)
    requires rated != []
    ensures SumCounts(rated, n) == SumCounts(rated[..|rated| - 1], n) + Hits(rated[|rated| - 1], n)
  {
    if n > 0 {
      SumCountsStep(rated, n - 1);
    }
  }

  /** Only ratings equal to a key are counted, so the distribution adds up to at most
      the number of rated items. */
  lemma {:induction false} RatingDistAtMostRated(rated: seq<MediaItem>)
    ensures SumCounts(rated, 10) <= |rated|
    decreases |rated|
  {
    if rated != [] {
      RatingDistAtMostRated(rated[..|rated| - 1]);
      SumCountsStep(rated, 10);
      HitsAtMostOne(rated[|rated| - 1], 10);
    } else {
      NothingCounted(10);
    }
  }

  lemma {:induction false} NothingCounted(n: nat)
    ensures SumCounts([], n) == 0
  {
    if n > 0 {
      NothingCounted(n - 1);
    }
  }

  // ---------------------------------------------------------------------
  // Years
  // ---------------------------------------------------------------------

  /** `date.substring(0, 4)` */
  function YearOf(date: string): (y: string)
    ensures |y| <= 4 && StartsWith(date, y)
  {
    date[..if |date| < 4 then |date| else 4]
  }

  function YearBag(watched: seq<MediaItem>): multiset<string>
    decreases |watched|
  {
    if watched == [] then multiset{}
    else
      var last := watched[|watched| - 1];
      YearBag(watched[..|watched| - 1]) + (if Truthy(last.watchedDate) then multiset{YearOf(last.watchedDate.value)} else multiset{})
  }

  /** `yearCounts` after the first `|watched|` items. */
  function YearTally(watched: seq<MediaItem>): Tally
    decreases |watched|
  {
    if watched == [] then EmptyTally()
    else
      var last := watched[|watched| - 1];
      var t := YearTally(watched[..|watched| - 1]);
      if Truthy(last.watchedDate) then Bump(t, YearOf(last.watchedDate.value)) else t
  }

  /** Each watched item with a watched date adds one to its year. */
  lemma {:induction false} YearTallyCounts(watched: seq<MediaItem>)
    ensures TallyWF(YearTally(watched))
    ensures forall y :: CountOf(YearTally(watched), y) == YearBag(watched)[y]
    decreases |watched|
  {
    if watched != [] {
      var init, last := watched[..|watched| - 1], watched[|watched| - 1];
      YearTallyCounts(init);
      if Truthy(last.watchedDate) {
        BumpCounts(YearTally(init), YearOf(last.watchedDate.value));
      }
    }
  }

  /** The year loop. */
  method CountYears(watched: seq<MediaItem>) returns (t: Tally)
    ensures t == YearTally(watched)
  {
    t := EmptyTally();
    for i := 0 to |watched|
      invariant t == YearTally(watched[..i])
    {
      assert watched[..i + 1][..i] == watched[..i];
      if Truthy(watched[i].watchedDate) {
        t := Bump(t, YearOf(watched[i].watchedDate.value));
      }
    }
    assert watched[..|watched|] == watched;
  }

  /** `.sort((a, b) => b[0].localeCompare(a[0]))` */
  predicate YearDesc(a: (string, nat), b: (string, nat)) {
    StrLe(b.0, a.0)
  }

  lemma YearDescTotal()
    ensures TotalPreorder(YearDesc)
  {
    forall a: (string, nat), b: (string, nat) ensures YearDesc(a, b) || YearDesc(b, a) {
      StrLeTotal(a.0, b.0);
    }
    forall a: (string, nat), b: (string, nat), c: (string, nat) | YearDesc(a, b) && YearDesc(b, c)
      ensures YearDesc(a, c)
    {
      StrLeTransitive(c.0, b.0, a.0);
    }
  }

  /** `Object.entries(yearCounts).sort(...)`, before the slice. */
  function YearRanking(watched: seq<MediaItem>): seq<(string, nat)> {
    YearTallyCounts(watched);
    SortBy(Entries(YearTally(watched)), YearDesc)
  }

  /** `Object.entries(yearCounts).sort(...).slice(0, 5)` */
  function YearEntries(watched: seq<MediaItem>): seq<(string, nat)> {
    Take(YearRanking(watched), 5)
  }

  /** The entry counts. */
  function EntryCounts(e: seq<(string, nat)>): (c: seq<nat>)
    ensures |c| == |e|
    ensures forall i :: 0 <= i < |e| ==> c[i] == e[i].1
  {
    seq(|e|, i requires 0 <= i < |e| => e[i].1)
  }

  /** `yearEntries.length > 0 ? Math.max(...counts, 1) : 1` */
  function MaxYearCount(e: seq<(string, nat)>): (m: nat)
    ensures m >= 1
    ensures forall i :: 0 <= i < |e| ==> e[i].1 <= m
    ensures m == 1 || exists i :: 0 <= i < |e| && e[i].1 == m
  {
    if |e| > 0 then MaxWith(EntryCounts(e), 1) else 1
  }

  /** Every year that occurs has its entry, with its number of watched items, in the
      sorted list the page slices. */
  lemma YearRankingComplete(watched: seq<MediaItem>)
    ensures forall y :: YearBag(watched)[y] > 0 ==> (y, YearBag(watched)[y]) in multiset(YearRanking(watched))
  {
    var t := YearTally(watched);
    YearTallyCounts(watched);
    EntriesComplete(t);
    forall y | YearBag(watched)[y] > 0 ensures (y, YearBag(watched)[y]) in multiset(YearRanking(watched)) {
      assert CountOf(t, y) > 0;
    }
  }

  /** No year left out of the five is later than one kept. */
  lemma YearEntriesLatest(watched: seq<MediaItem>)
    ensures var all := YearRanking(watched);
      var e := YearEntries(watched);
      forall i, j :: 0 <= i < |e| <= j < |all| ==> StrLe(all[j].0, e[i].0)
  {
    var all := YearRanking(watched);
    var e := YearEntries(watched);
    YearTallyCounts(watched);
    YearDescTotal();
    assert all == SortBy(Entries(YearTally(watched)), YearDesc);
    SortBySorted(Entries(YearTally(watched)), YearDesc);
    TakeSorted(all, 5, YearDesc);
    forall i, j | 0 <= i < |e| <= j < |all| ensures StrLe(all[j].0, e[i].0) {
      assert YearDesc(e[i], all[j]);
    }
  }

  /** The five latest years, latest first, each with its number of watched items: the
      first min(5, years) of the sorted list, and no year left out is later than one
      kept. */
  lemma YearEntriesSpec(watched: seq<MediaItem>)
    ensures var all := YearRanking(watched);
      var e := YearEntries(watched);
      && |e| == (if |all| <= 5 then |all| else 5)
      && e == all[..|e|]
      && Sorted(e, YearDesc)
      && (forall i, j :: 0 <= i < |e| <= j < |all| ==> StrLe(all[j].0, e[i].0))
      && forall i :: 0 <= i < |e| ==> e[i].1 == YearBag(watched)[e[i].0] && e[i].1 >= 1
  {
    var t := YearTally(watched);
    YearTallyCounts(watched);
    YearDescTotal();
    TopEntries(t, YearDesc, 5);
    var all := YearRanking(watched);
    var e := YearEntries(watched);
    assert all == SortBy(Entries(t), YearDesc) && e == Take(all, 5);
    YearEntriesLatest(watched);
  }

  /** Every counted year is the first four characters of a watched date. */
  lemma {:induction false} YearsComeFromDates(watched: seq<MediaItem>, y: string)
    requires YearBag(watched)[y] > 0
    ensures exists i :: 0 <= i < |watched| && Truthy(watched[i].watchedDate) && y == YearOf(watched[i].watchedDate.value)
    decreases |watched|
  {
    var init, last := watched[..|watched| - 1], watched[|watched| - 1];
    if YearBag(init)[y] > 0 {
      YearsComeFromDates(init, y);
      var i :| 0 <= i < |init| && Truthy(init[i].watchedDate) && y == YearOf(init[i].watchedDate.value);
      assert init[i] == watched[i];
    } else {
      assert Truthy(last.watchedDate) && y == YearOf(last.watchedDate.value);
    }
  }

  // ---------------------------------------------------------------------
  // Top rated
  // ---------------------------------------------------------------------

  /** `.sort((a, b) => (b.user_rating || 0) - (a.user_rating || 0))` */
  predicate RatingDesc(a: MediaItem, b: MediaItem) {
    RatingOrZero(a) >= RatingOrZero(b)
  }

  /** `[...watched].filter(rated).sort(...).slice(0, 5)` */
  function TopRated(watched: seq<MediaItem>): seq<MediaItem> {
    Take(SortBy(Filter(watched, IsRated), RatingDesc), 5)
  }

  /** The five best-rated watched items, best first: the first min(5, rated) of the
      rated items sorted by rating, and no rated item left out is rated above one kept. */
  lemma TopRatedSpec(watched: seq<MediaItem>)
    ensures var all := SortBy(Filter(watched, IsRated), RatingDesc);
      var r := TopRated(watched);
      && multiset(all) == multiset(Filter(watched, IsRated))
      && |r| == (if |all| <= 5 then |all| else 5)
      && r == all[..|r|]
      && (forall x :: x in r ==> x in watched && IsRated(x))
      && Sorted(r, RatingDesc)
      && (forall i, j :: 0 <= i < |r| <= j < |all| ==> RatingOrZero(all[j]) <= RatingOrZero(r[i]))
  {
    var sorted := SortBy(Filter(watched, IsRated), RatingDesc);
    SortBySorted(Filter(watched, IsRated), RatingDesc);
    TakeSorted(sorted, 5, RatingDesc);
    var r := TopRated(watched);
    forall x | x in r ensures x in watched && IsRated(x) {
      assert x in multiset(sorted);
      FilterMembers(watched, IsRated, x);
    }
    assert forall i, j :: 0 <= i < j < |r| ==> r[i] == sorted[i] && r[j] == sorted[j];
  }

  // ---------------------------------------------------------------------
  // The whole memo
  // ---------------------------------------------------------------------

  datatype Stats = Stats(
    totalWatched: nat,
    totalWatchlist: nat,
    movieCount: nat,
    showCount: nat,
    avgRating: real,
    ratedCount: nat,
    genreEntries: seq<(string, nat)>,
    maxGenreCount: nat,
    ratingDist: map<real, nat>,
    maxRatingCount: nat,
    yearEntries: seq<(string, nat)>,
    maxYearCount: nat,
    topRated: seq<MediaItem>)

  /** The statistics of a list of library rows. */
  function StatsOf(items: seq<MediaItem>): Stats {
    var watched := Filter(items, IsWatched);
    var rated := Filter(watched, IsRated);
    var genres := GenreEntries(watched);
    var years := YearEntries(watched);
    Stats(|watched|, |Filter(items, IsWatchlist)|, |Filter(watched, IsMovie)|,
      |Filter(watched, IsShow)|, Average(rated), |rated|, genres, MaxGenreCount(genres),
      RatingDist(rated), MaxRatingCount(rated), years, MaxYearCount(years), TopRated(watched))
  }

  /** The memo body: the filters, then the counting loops. */
  method ComputeStats(items: seq<MediaItem>) returns (s: Stats)
    ensures s == StatsOf(items)
  {
    var watched := Filter(items, IsWatched);
    var rated := Filter(watched, IsRated);
    var genreCounts := CountGenres(watched);
    GenreTallyCounts(watched);
    var genreEntries := Take(SortBy(Entries(genreCounts), CountDesc), 10);
    var ratingDist := RatingDistribution(rated);
    var yearCounts := CountYears(watched);
    YearTallyCounts(watched);
    var yearEntries := Take(SortBy(Entries(yearCounts), YearDesc), 5);
    s := Stats(|watched|, |Filter(items, IsWatchlist)|, |Filter(watched, IsMovie)|,
      |Filter(watched, IsShow)|, Average(rated), |rated|, genreEntries, MaxGenreCount(genreEntries),
      ratingDist, MaxRatingCount(rated), yearEntries, MaxYearCount(yearEntries), TopRated(watched));
  }

  /** Rated items have a rating above 0, so their average is above 0. */
  lemma AveragePositive(rated: seq<MediaItem>)
    requires forall i :: 0 <= i < |rated| ==> IsRated(rated[i])
    ensures |rated| == 0 ==> Average(rated) == 0.0
    ensures |rated| > 0 ==> Average(rated) > 0.0
  {
    if |rated| > 0 {
      AverageBetweenMinAndMax(rated);
      var i :| 0 <= i < |rated| && MinRating(rated) == RatingOrZero(rated[i]);
    }
  }

  /** The headline counts add up, the average is 0 exactly when nothing is rated, and
      the distribution has a bar for each half step. */
  lemma StatsConsistent(items: seq<MediaItem>)
    ensures StatsOf(items).totalWatched + StatsOf(items).totalWatchlist == |items|
    ensures StatsOf(items).movieCount + StatsOf(items).showCount == StatsOf(items).totalWatched
    ensures StatsOf(items).ratedCount <= StatsOf(items).totalWatched
    ensures StatsOf(items).ratedCount == 0 <==> StatsOf(items).avgRating == 0.0
    ensures StatsOf(items).ratingDist.Keys == RatingKeys()
  {
    CountsAddUp(items);
    AveragePositive(Filter(Filter(items, IsWatched), IsRated));
  }
}
