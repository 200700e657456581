# Movie/Show tracker core, in Dafny

This project models the logic of a desktop movie and TV-show tracker. The tracker is a
Tauri app written in TypeScript over a local SQLite table. Users search and browse the
TMDB catalogue, keep titles as "watched" or "watchlist", rate them in half stars, write
notes, and look at statistics. The colour theme can be derived from an uploaded image.

The model covers:

- **Theme** (`theme.dfy`).
  - The dominant-hue histogram over a 100 × 100 RGBA pixel buffer, with its filter of
    near-black, near-white and near-gray pixels, 12 hue buckets and a first-index argmax.
  - HSL → RGB conversion, the 13-slot tonal palette and the accent formulas.
  - The resize ratio, the default theme and `rgbStr`.
- **Library table** (`database.ts` over the schema in `lib.rs`), in `database.dfy`.
  - A class `MediaTable` holds the rows in rowid order and the next AUTOINCREMENT id.
  - Its methods are the `addMedia` upsert with COALESCE, the `updateMedia` statement
    builder with its update, and `deleteMedia`.
  - The four queries are functions over the rows.
- **Catalogue post-processing** (`tmdb.dfy`): image URLs, the movie/tv result filter,
  type stamping and the recommendation fallback type.
- **Pages**, in `stats_page.dfy`, `discover_page.dfy`, `quick_add.dfy`,
  `library_page.dfy`, `search_page.dfy`, `settings_page.dfy`, `media_detail.dfy` and
  `rating_stars.dfy`:
  - statistics;
  - the recommendation merge;
  - quick add, from the discover and search pages;
  - the library list and its quick add;
  - the search box and its filter counts;
  - backup import and theme reset;
  - save/rate/delete in the detail view;
  - the rating stars.

Supporting modules: `opt.dfy` (Option/Result), `seqs.dfy` (filter, sum, take, stable
insertion sort, sortedness and distinctness), `strings.dfy` (decimal printing and parsing,
split/join, trim, ASCII lower-casing, lexicographic order) and `types.dfy` (the record
shapes of `src/lib/types.ts`).

Modelling conventions:

- **Numbers.** Colour arithmetic and averages use `real`. `Math.round(x)` is
  `floor(x + 0.5)`. JavaScript's `%` on doubles truncates, and it is written out as
  such (`Theme.FMod360`).
- **Time.** The clock is a `now: Timestamp` parameter to every table write, and "today"
  (`toISOString().split("T")[0]`) is a `today: string` parameter.
- **Keys.** The key `${id}-${media_type}` is the pair `(id, media_type)`. Because the id
  is an integer, distinct pairs give distinct strings, so the pair loses nothing.
- **Media types.** A TMDB `media_type` is the raw string the API sends, with `""` when it
  is absent. The table's rows use the two-valued `MediaType`, because the CHECK constraint on the
  column admits only `movie` and `tv`.
- **State.** Page state that the code updates step by step is a class: `SearchState`,
  `DetailState`. Each event handler is a method proved against a function of the old
  state.
- **Accent-light saturation.** `src/lib/theme.ts:72` takes the accent-light saturation
  from the boosted accent saturation: max(min(S + 20, 80) − 10, 30) for a dominant
  saturation S. `Theme.AccentLightSaturation` states it in closed form.

## Model

| member | source | states |
|---|---|---|
| Theme.RgbStrRoundTrip | src/lib/theme.ts:228-230 | a colour with non-negative channels printed by `rgbStr` reads back as the same colour |
| Theme.ValidRgbStrOf | src/lib/theme.ts:228-230 | `rgbStr` of an in-range colour is an in-range "r g b" string |
| Theme.FMod360 | src/lib/theme.ts:200 | JavaScript's `h % 360` lies strictly between -360 and 360 |
| Theme.HueTurns | src/lib/theme.ts:200 | the wrapped hue is a fraction of a turn in [0, 1) |
| Theme.HueTurnsWhole | src/lib/theme.ts:200 | the wrap only removes whole turns: 360·HueTurns(h) = h − 360k for an integer k |
| Theme.HueTurnsInRange | src/lib/theme.ts:200 | a hue already in [0, 360) is only divided by 360 |
| Theme.HueTurnsPeriodic | src/lib/theme.ts:200 | adding a full turn does not change the wrapped hue |
| Theme.Clamp100 | src/lib/theme.ts:201-202 | the clamp lands in [0, 100], is the identity inside and gives the nearest bound outside |
| Theme.WrapTurn | src/lib/theme.ts:210-211 | `hue2rgb`'s wrap brings any t in [-1, 2] into [0, 1] |
| Theme.Hue2RgbBetween | src/lib/theme.ts:209-216 | for the arguments `hslToRgb` passes, a channel lies between p and q |
| Theme.EndsInUnit | src/lib/theme.ts:218-219 | the interpolation ends satisfy 0 ≤ p ≤ q ≤ 1 for s, l in [0, 1] |
| Theme.Channel | src/lib/theme.ts:222-224 | `Math.round(v * 255)` of a v in [0, 1] is an integer in [0, 255] |
| Theme.HslToRgb | src/lib/theme.ts:199-226 | every output channel is an integer in [0, 255], whatever h, s and l |
| Theme.HslToRgbGray | src/lib/theme.ts:204-207 | zero saturation gives (v, v, v) with v = round(clamp(l)/100 · 255) |
| Theme.HslToRgbPeriodic | src/lib/theme.ts:200 | h and h + 360 give the same colour |
| Theme.HslToRgbClamps | src/lib/theme.ts:201-202 | s and l outside [0, 100] act as the nearest bound |
| Theme.HslToRgbPureRed | src/lib/theme.ts:199-226 | HSL(0, 100, 50) is RGB(255, 0, 0) |
| Theme.DefaultTheme | src/lib/theme.ts:10-31 | the default theme has no background image and exactly the 13 slot names in order |
| Theme.DefaultAccentString | src/lib/theme.ts:13 | the default accent is the string "16 185 129" |
| Theme.DefaultAccentLightString | src/lib/theme.ts:14 | the default accent-light is the string "110 231 183" |
| Theme.DefaultThemeWellFormed | src/lib/theme.ts:10-31 | both default accents parse back to their colours, and the default theme is well formed (13 slots, in-range triples) |
| Theme.RampShape | src/lib/theme.ts:86-101 | 13 slots named as the palette's keys; lightness runs from 4 to 91 and strictly increases; the multipliers lie in (0, 1] and never increase |
| Theme.SlotSaturation | src/lib/theme.ts:86-101 | every slot saturation is at most 30, and non-negative for a non-negative input saturation |
| Theme.PaletteFromHue | src/lib/theme.ts:82-102 | the generated palette has the 13 slot names, each slot the HSL colour at its fixed lightness and scaled saturation |
| Theme.AccentSaturation | src/lib/theme.ts:70 | the accent saturation is at most 80 and at most S + 20; it is S + 20 when S ≤ 60 and 80 when S ≥ 60 |
| Theme.AccentLightSaturation | src/lib/theme.ts:72 | the accent-light saturation lies in [30, 70] and equals max(min(S + 10, 70), 30), i.e. max(accentSat − 10, 30) |
| Theme.ThemeFromColor | src/lib/theme.ts:66-80 | the generated theme keeps the data URL and names the thirteen palette slots in ramp order |
| Theme.GeneratedThemeWellFormed | src/lib/theme.ts:66-101 | every generated theme has the 13 slots and only in-range colours |
| Theme.PixelSample | src/lib/theme.ts:157-174 | a pixel is skipped exactly when l < 0.08, l > 0.92 or d < 0.08; an accepted pixel has a positive saturation denominator, h in [0, 1) and s in (0, 1] |
| Theme.GrayPixelSkipped | src/lib/theme.ts:166 | a gray pixel has no chroma and is always skipped |
| Theme.HueOf | src/lib/theme.ts:169-174 | the hexagon hue formula gives a fraction in [0, 1) |
| Theme.BucketIndex | src/lib/theme.ts:176 | for h in [0, 1) the bucket index lies in [0, 11], and bucket i holds hues in [30i, 30i + 30) degrees |
| Theme.AddSample | src/lib/theme.ts:177-179 | adding a sample keeps 12 buckets |
| Theme.Histogram | src/lib/theme.ts:156-180 | the histogram of any prefix of the buffer has 12 buckets |
| Theme.HistogramCountsAccepted | src/lib/theme.ts:156-180 | the bucket counts sum to the number of accepted pixels |
| Theme.AddSampleKeepsInvariant | src/lib/theme.ts:176-179 | each bucket's hue total stays within its 30-degree range per pixel and its saturation total within (0, 100] per pixel |
| Theme.HistogramInvariant | src/lib/theme.ts:156-180 | the per-bucket range invariant holds after any prefix |
| Theme.FirstMaxIndex | src/lib/theme.ts:182-185 | the strict `>` scan from bucket 0 returns the first bucket of maximal count |
| Theme.FirstMaxUnique | src/lib/theme.ts:182-185 | there is only one first maximal bucket |
| Theme.TieGoesToLowerBucket | src/lib/theme.ts:182-185 | a bucket tied with an earlier one is never chosen |
| Theme.FallbackIffNothingAccepted | src/lib/theme.ts:187-191 | the chosen bucket is empty exactly when no pixel passed the filter |
| Theme.DominantInChosenBucket | src/lib/theme.ts:187-192 | a non-empty chosen bucket's mean hue lies in its range; the dominant hue lies in [0, 360) and the saturation in (0, 100] |
| Theme.DominantOfBounds | src/lib/theme.ts:187-192 | the same bounds, for any buckets that keep the range invariant |
| Theme.BucketMean | src/lib/theme.ts:192 | the mean of a non-empty bucket lies in that bucket's hue range, with saturation in (0, 100] |
| Theme.GrayImageFallsBack | src/lib/theme.ts:187-190 | an all-gray buffer yields the fallback hue 150 and saturation 40 |
| Theme.RedPixel | src/lib/theme.ts:157-174 | the pure red pixel gives hue 0 and saturation 1 |
| Theme.RedImage | src/lib/theme.ts:156-192 | an all-red buffer gives dominant hue 0 and saturation 100 |
| Theme.FillBuckets | src/lib/theme.ts:150-180 | the pixel loop fills a fresh 12-bucket array equal to the histogram of the whole buffer |
| Theme.FullestBucket | src/lib/theme.ts:182-185 | the argmax loop returns the first bucket of maximal count |
| Theme.ExtractDominantColor | src/lib/theme.ts:150-192 | the method's hue and saturation are the dominant colour of the buffer |
| Theme.ScaledFits | src/lib/theme.ts:117-119 | a side scaled by a ratio at most bound/side rounds to a value in [0, bound] |
| Theme.ScaledShrinks | src/lib/theme.ts:117-119 | a ratio below 1 never enlarges a side |
| Theme.ResizeDimensions | src/lib/theme.ts:115-120 | an image within both bounds keeps its size; otherwise both sides are scaled by the smaller ratio and rounded; the result fits the bounds and never enlarges |
| Theme.HalvedToFit | src/lib/theme.ts:115-120 | a 3200 × 1800 image is scaled by 0.5 to exactly 1600 × 900 |
| Theme.GenerateThemeFromImage | src/lib/theme.ts:66-80 | the theme built from an image is the one its dominant colour determines, and it is well formed |
| Database.Chosen | src/lib/database.ts:63-76 | the chosen fields come from the visited part of the allow-list, are keys of `updates`, and keep allow-list order |
| Database.ChosenMembers | src/lib/database.ts:70-76 | a field is chosen exactly when it is allow-listed and `updates` sets it |
| Database.Assignments | src/lib/database.ts:72 | the i-th assignment writes the i-th chosen column to placeholder $(i+1) |
| Database.Params | src/lib/database.ts:73 | the i-th value is the update's value for the i-th chosen column |
| Database.CollectAssignments | src/lib/database.ts:59-76 | the loop's `fields`, `values` and `paramIndex` are the assignments and values of the chosen fields, and their count plus one |
| Database.BuildUpdate | src/lib/database.ts:70-86 | no statement exactly when no allowed field is set; otherwise the statement with `updated_at` appended and the id bound last |
| Database.UpdateStatementShape | src/lib/database.ts:70-85 | with k chosen fields: k + 1 clauses and values; placeholders $1..$k in allow-list order, each binding its column's value; the id at $(k+1); `updated_at` set exactly once; only allowed columns |
| Database.OnlyAllowedKeysMatter | src/lib/database.ts:63-77 | a key outside the allow-list changes neither the chosen fields nor the statement |
| Database.FindKey | src/lib/database.ts:116-120 | the index returned holds the key; `None` means no row has it |
| Database.FindKeyFrom | src/lib/database.ts:116-120 | the index returned is the first at or after `from` that holds the key |
| Database.FindKeyUnique | src-tauri/src/lib.rs:25 | in a table keeping its invariant, the row with a key is the one found |
| Database.InsertedRow | src/lib/database.ts:18-22 | the inserted row carries the record's key and the given id |
| Database.Merged | src/lib/database.ts:23-35 | on conflict: id, created_at and key kept; catalogue columns and status overwritten; rating, notes and watched date kept when the new value is null (COALESCE); updated_at is now |
| Database.MergedIdempotent | src/lib/database.ts:23-35 | merging the same record twice is merging it once |
| Database.UpsertFailsIffBadRating | src-tauri/src/lib.rs:20 | the upsert fails exactly when the rating breaks the CHECK constraint 0 ≤ user_rating ≤ 5 |
| Database.UpsertAbsentAppends | src/lib/database.ts:17-22 | an absent key appends one row with the next id and keeps every other row |
| Database.UpsertPresentInPlace | src/lib/database.ts:23-35 | an existing key merges into that row in place and leaves every other row alone; the model's id counter does not advance on this path |
| Database.UpsertKeepsInvariant | src-tauri/src/lib.rs:9-25 | the upsert keeps ids below the next id, both timestamps, in-range ratings, and keys unique in rowid order |
| Database.UpsertThenFind | src/lib/database.ts:13-51 | after an upsert with a valid rating, looking up the key finds a row with the record's title, status, stamp and non-null rating |
| Database.Patched | src/lib/database.ts:80-86 | an update never touches identity or catalogue columns, stamps the row, and sets each of the four columns exactly when the update names it |
| Database.UpdateRowsEffect | src/lib/database.ts:70-86 | a successful update only changes the row with that id, and only the allowed columns |
| Database.UpdateWithoutAllowedKeysIsNoOp | src/lib/database.ts:78 | updates with no allowed key leave the table unchanged |
| Database.UpdateKeepsInvariant | src-tauri/src/lib.rs:9-25 | an update keeps the table invariant |
| Database.DeleteRowsEffect | src/lib/database.ts:89-92 | after a delete a row is present exactly when it was present and has another id |
| Database.DeleteKeepsInvariant | src/lib/database.ts:89-92 | a delete keeps the table invariant |
| Database.MediaTable.constructor | src-tauri/src/lib.rs:8-26 | a fresh table is empty with next id 1 |
| Database.MediaTable.AddMedia | src/lib/database.ts:13-52 | the table becomes the upsert's rows and next id, or stays as it was when the CHECK constraint fails; the invariant is kept |
| Database.MediaTable.UpdateMedia | src/lib/database.ts:54-87 | the table becomes the update's rows, or stays on failure; the next id and the invariant are kept |
| Database.MediaTable.DeleteMedia | src/lib/database.ts:89-92 | the rows become the delete's rows; the invariant is kept |
| Database.NewerFirstTotal | src/lib/database.ts:99 | `updated_at DESC` is a total preorder |
| Database.ByStatusSpec | src/lib/database.ts:94-102 | `getMediaByStatus` returns a permutation of the rows with that status, newest first |
| Database.AllMediaSpec | src/lib/database.ts:104-109 | `getAllMedia` returns a permutation of all rows, newest first |
| Database.ByTmdbId | src/lib/database.ts:111-121 | a found row is in the table with the key asked for; null exactly when no row has it |
| Database.ByTmdbIdUnknownType | src-tauri/src/lib.rs:11 | a media type other than movie or tv is never found |
| Database.RatingThenNewerTotal | src/lib/database.ts:126 | `user_rating DESC, updated_at DESC` is a total preorder |
| Database.TopRatedSpec | src/lib/database.ts:123-129 | the candidates are exactly the watched rows rated ≥ 3, ordered by rating and then by most recent update; `LIMIT n` keeps the first min(n, candidates) of them and a negative limit keeps all; nothing left out ranks above a row returned |
| Types.ParseMediaType | src-tauri/src/lib.rs:11 | a parsed media type prints back as the input string |
| Types.MediaTypeRoundTrip | src/lib/types.ts:45 | printing and parsing a media type gives it back |
| Types.ParseStatus | src-tauri/src/lib.rs:19 | a parsed status prints back as the input string |
| Types.FirstTruthy | src/pages/DiscoverPage.tsx:172 | `a \|\| b \|\| fallback` for optional strings: the first non-empty one, else the fallback |
| Types.DisplayTitle | src/pages/DiscoverPage.tsx:168 | the title is never empty, and is the title, the name or "Unknown" |
| Types.GenreNames | src/pages/DiscoverPage.tsx:162-164 | the genre names, one per genre, in order |
| Tmdb.ImageUrl | src/lib/tmdb.ts:102-110 | "" exactly for a null or empty path; otherwise of length base + 1 + size + path |
| Tmdb.ImageUrlRoundTrip | src/lib/tmdb.ts:102-105 | a URL starts with base + "/" + size and gives back its path |
| Tmdb.ImageUrlInjective | src/lib/tmdb.ts:102-105 | different paths give different URLs |
| Tmdb.DefaultSizes | src/lib/tmdb.ts:102-110 | posters default to "w342" and backdrops to "w1280" |
| Tmdb.KeepMoviesAndShowsSpec | src/lib/tmdb.ts:16-19 | the kept results are exactly the movie and tv ones, all of a known type, and keeping again changes nothing |
| Tmdb.SearchMedia | src/lib/tmdb.ts:8-21 | fails exactly on a non-ok response or missing results; otherwise only movies and shows, in order |
| Tmdb.Trending | src/lib/tmdb.ts:23-32 | the same for the trending list |
| Tmdb.StampAll | src/lib/tmdb.ts:39-42 | every item is kept and stamped with the list's type |
| Tmdb.StampedList | src/lib/tmdb.ts:34-43 | fails exactly on a non-ok response or missing results; otherwise the stamped list |
| Tmdb.StampedListSpec | src/lib/tmdb.ts:34-76 | on success, one item per result, each of the fixed type with its id and vote kept |
| Tmdb.Recommendations | src/lib/tmdb.ts:78-90 | a non-ok response or missing results give []; otherwise one item per result |
| Tmdb.RecommendationsSpec | src/lib/tmdb.ts:84-89 | each item keeps its own type, or gets the queried one when it has none |
| Tmdb.FilterByTypeSpec | src/pages/DiscoverPage.tsx:191-194 | "all" returns the list unchanged; a type keeps exactly the items of that type; filtering twice is filtering once |
| RatingStars.DisplayRating | src/components/RatingStars.tsx:19 | the hovered value if any, else the rating, else 0 |
| RatingStars.FillPercent | src/components/RatingStars.tsx:21-26 | in [0, 100]; 100 when the rating reaches the star, 0 when it does not pass the star before it |
| RatingStars.FillNonIncreasing | src/components/RatingStars.tsx:21-26 | fills never increase from star 1 to star 5 |
| RatingStars.TotalFillIsRating | src/components/RatingStars.tsx:21-26 | the fills of the first n stars add up to 100 times the rating clamped to [0, n] |
| RatingStars.ClickValue | src/components/RatingStars.tsx:65-81 | the left half picks star − 0.5 and the right half picks the star; picking the current rating gives 0 |
| RatingStars.ClickTwiceClears | src/components/RatingStars.tsx:65-81 | clicking the same half again clears the rating |
| RatingStars.ClickValueIsHalfStep | src/components/RatingStars.tsx:65-81 | for stars 1 to 5, every click value is a half step in [0, 5], so a rating the table's CHECK accepts |
| StatsPage.CountsAddUp | src/pages/StatsPage.tsx:37-40 | watched + watchlist is the number of items, and movies + shows is the number watched |
| StatsPage.MinRating | src/pages/StatsPage.tsx:41-48 | a lower bound of the ratings that one of them attains |
| StatsPage.MaxRating | src/pages/StatsPage.tsx:41-48 | an upper bound of the ratings that one of them attains |
| StatsPage.AverageWithin | src/pages/StatsPage.tsx:44-48 | the average of ratings that all lie in [lo, hi] lies in [lo, hi] |
| StatsPage.AverageBetweenMinAndMax | src/pages/StatsPage.tsx:44-48 | the average lies between the smallest and the largest rating |
| StatsPage.AveragePositive | src/pages/StatsPage.tsx:41-48 | the average is 0 with no rated item and positive otherwise |
| StatsPage.BumpAllCounts | src/pages/StatsPage.tsx:57 | bumping a list of keys adds each key's number of occurrences to its count |
| StatsPage.TrimEach | src/pages/StatsPage.tsx:55 | each part trimmed, in order |
| StatsPage.GenreTokenShape | src/pages/StatsPage.tsx:53-56 | every genre token is non-empty, trimmed and free of commas |
| StatsPage.GenreTallyCounts | src/pages/StatsPage.tsx:50-60 | each genre is counted once per occurrence among the watched items' tokens |
| StatsPage.CountGenres | src/pages/StatsPage.tsx:50-60 | the nested loops build exactly that tally |
| StatsPage.EntryIsCount | src/pages/StatsPage.tsx:61 | every entry is a counted key with its count, at least 1 |
| StatsPage.TopEntries | src/pages/StatsPage.tsx:61-63 | sorting the entries keeps one per key; slicing keeps the first min(n, keys) of them, in order, each a key with its count of at least 1, and no left-out entry ranks above one kept |
| StatsPage.GenreRankingComplete | src/pages/StatsPage.tsx:50-62 | every genre that occurs among the watched items is in the ranking with its count |
| StatsPage.GenreEntriesSpec | src/pages/StatsPage.tsx:61-64 | the first min(10, genres) of the ranking, by count descending, each a genre with its count; no left-out genre has a higher count than one kept; `maxGenreCount` is 1 with no entries and otherwise the first entry's count, which bounds every entry |
| StatsPage.ZeroKeys | src/pages/StatsPage.tsx:67 | the `r += 0.5` loop creates exactly the keys 0.5, 1, …, 5, all at 0 |
| StatsPage.RatingDistribution | src/pages/StatsPage.tsx:66-71 | the loops build the distribution: each key counts the rated items with exactly that rating |
| StatsPage.DistCounts | src/pages/StatsPage.tsx:72 | `Object.values(ratingDist)`: the 10 counts, in half-step order; only their maximum is read (line 72), so the order is immaterial |
| StatsPage.DistCountsAreDist | src/pages/StatsPage.tsx:66-72 | the i-th value is the count of the key (i + 1) / 2 |
| StatsPage.MaxRatingCount | src/pages/StatsPage.tsx:72 | at least 1 and at least every bucket count, and either 1 or the count of some bucket |
| StatsPage.HitsAtMostOne | src/pages/StatsPage.tsx:70 | an item is counted at most once, exactly when its rating is one of the keys |
| StatsPage.RatingDistAtMostRated | src/pages/StatsPage.tsx:66-71 | the bucket counts add up to at most `ratedCount` |
| StatsPage.YearOf | src/pages/StatsPage.tsx:77 | `substring(0, 4)` is a prefix of at most 4 characters |
| StatsPage.YearTallyCounts | src/pages/StatsPage.tsx:74-80 | each year counts the watched items whose date starts with it |
| StatsPage.CountYears | src/pages/StatsPage.tsx:74-80 | the loop builds exactly that tally |
| StatsPage.YearDescTotal | src/pages/StatsPage.tsx:82 | year-descending order is a total preorder |
| StatsPage.YearRankingComplete | src/pages/StatsPage.tsx:74-82 | every year that occurs among the watched dates is in the ranking with its count |
| StatsPage.YearEntriesSpec | src/pages/StatsPage.tsx:81-83 | the first min(5, years) of the ranking, by year descending, each a year with its count of at least 1; no left-out year is later than one kept |
| StatsPage.YearEntriesLatest | src/pages/StatsPage.tsx:81-83 | no year left out of the five is later than one kept |
| StatsPage.MaxYearCount | src/pages/StatsPage.tsx:84-86 | at least 1 and at least every entry's count, and either 1 or the count of some entry |
| StatsPage.YearsComeFromDates | src/pages/StatsPage.tsx:75-79 | every counted year is the prefix of some watched item's date |
| StatsPage.TopRatedSpec | src/pages/StatsPage.tsx:88-91 | the first min(5, rated) of the watched items rated above 0, sorted by rating descending; no left-out rated item has a higher rating than one kept |
| StatsPage.ComputeStats | src/pages/StatsPage.tsx:36-108 | the method's record is the statistics of the items |
| StatsPage.StatsConsistent | src/pages/StatsPage.tsx:93-107 | the counts add up; `ratedCount` ≤ `totalWatched`; the average is 0 exactly when nothing is rated; the distribution has exactly the ten half-star keys |
| DiscoverPage.FreshDistinct | src/pages/DiscoverPage.tsx:107-117 | the merge keeps no two results with the same key |
| DiscoverPage.FreshKeys | src/pages/DiscoverPage.tsx:109-117 | no kept key is in the library; every input key is either in the library or kept |
| DiscoverPage.FreshFirst | src/pages/DiscoverPage.tsx:107-117 | each kept result is the first occurrence of its key in scan order |
| DiscoverPage.MergeRecommendations | src/pages/DiscoverPage.tsx:107-117 | the nested loops with the `seen` set compute the merge of the flattened lists |
| DiscoverPage.RecResults | src/pages/DiscoverPage.tsx:102-106 | one recommendation list per top-rated item |
| DiscoverPage.LoadRecommendations | src/pages/DiscoverPage.tsx:94-124 | the method's recommendations are the ones the specification function gives |
| DiscoverPage.LibraryKeysOfAllMedia | src/pages/DiscoverPage.tsx:94-96 | the library keys are the keys of the table's rows |
| DiscoverPage.RankedTop | src/pages/DiscoverPage.tsx:118-120 | the first min(20, merged) results sorted by vote, best first; no left-out result has a higher vote than one kept |
| DiscoverPage.RankedFrom | src/pages/DiscoverPage.tsx:118-120 | every ranked result is one of the merged results |
| DiscoverPage.RankedDistinct | src/pages/DiscoverPage.tsx:118-120 | ranking merged results with distinct keys keeps the keys distinct |
| DiscoverPage.FreshMember | src/pages/DiscoverPage.tsx:107-117 | a merged result has a key outside the library and is the first of its key in scan order |
| DiscoverPage.FreshMembers | src/pages/DiscoverPage.tsx:107-117 | the same for every result of a list taken from the merge |
| DiscoverPage.RankedSpec | src/pages/DiscoverPage.tsx:118-120 | at most 20, by vote descending, distinct keys, none from the library, each the first result of its key among the merged lists |
| DiscoverPage.RecommendationsForSpec | src/pages/DiscoverPage.tsx:98-124 | empty without top-rated items or when a request failed; otherwise min(20, fresh) results, where the fresh results are the merge without library keys, vote-sorted, distinct, and none with the key of a library row |
| QuickAdd.DateFor | src/pages/DiscoverPage.tsx:155-158 | today when watched, the given date otherwise |
| QuickAdd.ExistingUpdates | src/pages/DiscoverPage.tsx:153-159 | exactly `status` and `watched_date`, well typed, with the status and the date for it |
| QuickAdd.NewRecord | src/pages/DiscoverPage.tsx:165-182 | refused exactly for a type other than movie or tv; otherwise the item's key, the title fallback, the date fallback, the joined genres, no rating, no notes, and a watched date only when watched |
| QuickAdd.QuickAdd | src/pages/DiscoverPage.tsx:146-189 | the table becomes the quick add's effect, or stays as it was on failure |
| QuickAdd.IdNamesOneRow | src-tauri/src/lib.rs:9 | in a table keeping its invariant, two rows with one id are the same row |
| QuickAdd.ExistingRowUpdated | src/pages/DiscoverPage.tsx:153-159 | the update of a stored row succeeds and changes only that row's status, watched date and stamp |
| QuickAdd.QuickAddExisting | src/pages/DiscoverPage.tsx:151-159 | on an item in the library: only that row changes, in status and watched date (today when watched, the old date otherwise) |
| QuickAdd.QuickAddNew | src/pages/DiscoverPage.tsx:160-182 | on a new item: one row appended with the next id, the item's key, the title fallback, the genres, no rating or notes, and a watched date only when watched |
| QuickAdd.QuickAddRefusesOtherTypes | src/pages/DiscoverPage.tsx:151-182 | an item whose type is neither movie nor tv is never added |
| LibraryPage.OrdersTotal | src/pages/LibraryPage.tsx:60-73 | each of the page's comparators is a total preorder |
| LibraryPage.FilteredMembers | src/pages/LibraryPage.tsx:52-59 | an item passes exactly when it has the chosen type and, for a non-empty query, its title contains the query ignoring case |
| LibraryPage.DisplayedSpec | src/pages/LibraryPage.tsx:51-76 | a permutation of the filtered items; "recent" keeps input order; title ascending, rating descending (null as 0), and release date descending |
| LibraryPage.DisplayedMatch | src/pages/LibraryPage.tsx:53-59 | every displayed item is from the list, of the chosen type, and its title contains the query |
| LibraryPage.RecentIsNewestFirst | src/pages/LibraryPage.tsx:60-75 | with the page's query as input, "recent" is newest first |
| LibraryPage.LibraryQuickAdd | src/pages/LibraryPage.tsx:203-208 | writes only when the item has an id and the status is not "watched", and then only the status update |
| LibraryPage.StatusOnly | src/pages/LibraryPage.tsx:205 | exactly the `status` key, well typed |
| LibraryPage.StatusOnlyEffect | src/pages/LibraryPage.tsx:204-205 | the update succeeds and changes only the status and stamp of the row with that id |
| SearchPage.Selection | src/pages/SearchPage.tsx:74-81 | id, type and poster kept; the title falls back from title to name to "Unknown" |
| SearchPage.SearchState.constructor | src/pages/SearchPage.tsx:21-26 | an empty query, no results, nothing scheduled, no error |
| SearchPage.SearchState.HandleInputChange | src/pages/SearchPage.tsx:50-58 | a blank query clears the results and schedules nothing; any other query schedules a search for the trimmed query |
| SearchPage.SearchState.Clear | src/pages/SearchPage.tsx:158-159 | empties the query and results and leaves a scheduled search in place |
| SearchPage.SearchState.RunPendingSearch | src/pages/SearchPage.tsx:60-72 | the results become the filtered response, or stay with the error message on failure |
| SearchPage.TypeCountsAddUp | src/pages/SearchPage.tsx:172-175 | the movie and tv counts add up to the number of results |
| SearchPage.CountsMatchFilters | src/pages/SearchPage.tsx:128-131 | the "all" count is the number of results, and each type count is its filtered list's length |
| SettingsPage.Record | src/pages/SettingsPage.tsx:96-111 | refused exactly when the type or status is not allowed; otherwise the item's key, title, poster and backdrop paths; overview, release date and genres "" and vote 0 when missing; the item's status when given and watched when missing; rating, notes and watched date as given |
| SettingsPage.ImportBackup | src/pages/SettingsPage.tsx:82-125 | non-array input changes nothing; otherwise the table is the import loop's, and the result is its count or the failure; a `null` element fails the import and keeps the rows added before it |
| SettingsPage.ImportStopped | src/pages/SettingsPage.tsx:95-113 | after a failure, later items change nothing |
| SettingsPage.ImportCount | src/pages/SettingsPage.tsx:94-115 | a finished import counts exactly the importable items; a failed one counts at most that |
| SettingsPage.ImportNull | src/pages/SettingsPage.tsx:95-96 | an import finishes only if no element of the array is `null`, since reading `tmdb_id` of `null` throws |
| SettingsPage.ImportSkipsAll | src/pages/SettingsPage.tsx:96 | non-null items with a missing id, type or title leave the table as it was |
| SettingsPage.ImportMessage | src/pages/SettingsPage.tsx:115-120 | the failure message exactly for a failed import |
| SettingsPage.ImportMessageInjective | src/pages/SettingsPage.tsx:115 | different counts give different messages |
| SettingsPage.ResetTheme | src/pages/SettingsPage.tsx:127-129 | whatever the prior theme, no background image, the accents "16 185 129" and "110 231 183", and a well-formed 13-slot palette |
| MediaDetail.RatingOrNull | src/components/MediaDetail.tsx:87 | rating 0 becomes NULL and any other rating is sent as is |
| MediaDetail.NotesOrNull | src/components/MediaDetail.tsx:88 | empty notes become NULL and any other notes are sent as is |
| MediaDetail.SaveUpdates | src/components/MediaDetail.tsx:84-93 | exactly the four allowed keys, well typed: the status, rating (0 → null), notes ("" → null), and today or the old watched date |
| MediaDetail.SaveRecord | src/components/MediaDetail.tsx:79-112 | the key asked for, the title fallback, the date fallback, the joined genres, rating and notes as above, and a watched date only when watched |
| MediaDetail.RatingOnly | src/components/MediaDetail.tsx:133 | exactly the `user_rating` key, 0 as null |
| MediaDetail.DetailState.LoadData | src/components/MediaDetail.tsx:51-71 | on success: the details and the library row, with rating ?? 0 and notes ?? ""; on failure only the error |
| MediaDetail.DetailState.HandleSave | src/components/MediaDetail.tsx:73-128 | nothing without details; otherwise the table is the save's effect and the view's row is looked up again, or both stay with the error on failure |
| MediaDetail.DetailState.HandleRatingChange | src/components/MediaDetail.tsx:130-148 | the view always takes the rating; the table changes only when the row has an id |
| MediaDetail.DetailState.HandleDelete | src/components/MediaDetail.tsx:150-167 | nothing without an id; otherwise the row is deleted and the view is reset to no row, rating 0 and notes "" |
| MediaDetail.SaveExisting | src/components/MediaDetail.tsx:84-93 | saving a stored row fails exactly for an out-of-range rating; otherwise only that row changes, in status, rating, notes, watched date and stamp |
| MediaDetail.SaveNew | src/components/MediaDetail.tsx:95-112 | saving a new item appends one row with the next id, the title fallback, the genres, the status and a watched date only when watched |
| MediaDetail.SaveNewThenFound | src/components/MediaDetail.tsx:114-115 | after saving a new item the lookup finds it with the chosen status |
| MediaDetail.RatingChangeEffect | src/components/MediaDetail.tsx:130-135 | a rating change on a stored row writes only its rating (0 as null) and stamp, and fails exactly for an out-of-range rating |
| MediaDetail.DeleteThenGone | src/components/MediaDetail.tsx:150-157 | after deleting a stored row by its id, the item is no longer found and every other row stays |
| Theme.HslUnit | src/lib/theme.ts:209-225 | the three channels of a unit hue, saturation and lightness are integers in [0, 255] |
| Theme.DefaultSwatches | src/lib/theme.ts:15-29 | the default palette has one colour per slot, 13 in all |
| Theme.NoneAccepted | src/lib/theme.ts:166 | a buffer of gray pixels has no accepted pixel |
| Theme.RedHistogram | src/lib/theme.ts:156-180 | n pure red pixels fill only bucket 0, with count n and saturation total 100·n |
| Database.ChosenIgnoresOtherKeys | src/lib/database.ts:70-76 | setting a key that is not an allowed column changes neither the chosen fields nor their values |
| Database.NoAllowedKeyChoosesNothing | src/lib/database.ts:70-78 | updates with no allowed key choose no field |
| Strings.Trim | src/pages/SearchPage.tsx:53 | `trim()`: the result is the input with all leading and trailing white space removed |
| Strings.TrimEmptyIffBlank | src/pages/SearchPage.tsx:53 | `!value.trim()` holds exactly for a string of white space only |
| Strings.TrimIdempotent | src/pages/SearchPage.tsx:57 | trimming a trimmed query changes nothing |
| Strings.Lower | src/pages/LibraryPage.tsx:57-58 | `toLowerCase()` keeps the length and folds each character |
| Strings.Contains | src/pages/LibraryPage.tsx:58 | `includes(q)` holds exactly when q occurs at some position |
| Strings.Split | src/pages/StatsPage.tsx:53-54 | `split(",")`: at least one part, and no part contains the separator |
| Strings.SplitJoin | src/pages/StatsPage.tsx:53-54 | joining the parts with the separator gives back the string |
| Seqs.SortBy | src/pages/LibraryPage.tsx:60-74 | `sort` returns a permutation of its input |
| Seqs.SortBySorted | src/pages/LibraryPage.tsx:60-74 | under a total preorder, the sorted list is in order |
| Seqs.TakeSorted | src/pages/StatsPage.tsx:61-63 | `slice(0, n)` of a sorted list is sorted, and nothing after the slice ranks above anything in it |
| StatsPage.BumpCounts | src/pages/StatsPage.tsx:57 | `counts[g] = (counts[g] \|\| 0) + 1` adds one to g's count and leaves every other count |
| StatsPage.Entries | src/pages/StatsPage.tsx:61 | `Object.entries`: one entry per key, in insertion order, with its count |
| StatsPage.EntriesComplete | src/pages/StatsPage.tsx:61 | every counted key has its entry with its count |
| Database.Upsert | src/lib/database.ts:17-35 | defined as the INSERT … ON CONFLICT DO UPDATE on the rows and the id counter; specified by UpsertFailsIffBadRating, UpsertAbsentAppends, UpsertPresentInPlace, UpsertKeepsInvariant and UpsertThenFind |
| Database.UpdateRows | src/lib/database.ts:70-86 | defined as the generated UPDATE applied to the row with that id; specified by UpdateRowsEffect, UpdateWithoutAllowedKeysIsNoOp and UpdateKeepsInvariant |
| Database.DeleteRows | src/lib/database.ts:89-92 | defined as `DELETE FROM media WHERE id = $1`; specified by DeleteRowsEffect and DeleteKeepsInvariant |
| Database.ByStatus | src/lib/database.ts:94-102 | defined as the rows with that status ordered by `updated_at DESC`; specified by ByStatusSpec |
| Database.AllMedia | src/lib/database.ts:104-109 | defined as all rows ordered by `updated_at DESC`; specified by AllMediaSpec |
| Database.TopRated | src/lib/database.ts:123-129 | defined as the top-rated query with its LIMIT; specified by TopRatedSpec |
| Database.UpdateStatement | src/lib/database.ts:70-85 | defined as the SET clauses and parameters built from the chosen keys; specified by UpdateStatementShape, OnlyAllowedKeysMatter and CollectAssignments |
| StatsPage.StatsOf | src/pages/StatsPage.tsx:36-108 | defined as the statistics record the page computes; specified by ComputeStats and StatsConsistent |
| StatsPage.GenreTally | src/pages/StatsPage.tsx:50-60 | defined as the token-by-token count; specified by GenreTallyCounts and CountGenres |
| StatsPage.RatingDist | src/pages/StatsPage.tsx:66-71 | defined as the ten half-step keys with their counts; specified by ZeroKeys, RatingDistribution and DistCountsAreDist |
| StatsPage.YearTally | src/pages/StatsPage.tsx:74-80 | defined as the count of watched dates by their first four characters; specified by YearTallyCounts, CountYears and YearsComeFromDates |
| StatsPage.TopRated | src/pages/StatsPage.tsx:88-91 | defined as the rated watched items sorted by rating and sliced to five; specified by TopRatedSpec |
| StatsPage.GenreTokens | src/pages/StatsPage.tsx:53-56 | defined as split on ",", trim and drop empty parts; specified by TrimEach and GenreTokenShape |
| DiscoverPage.Fresh | src/pages/DiscoverPage.tsx:107-117 | defined as the scan that keeps a result whose key is new and not in the library; specified by FreshDistinct, FreshKeys, FreshFirst and MergeRecommendations |
| DiscoverPage.Ranked | src/pages/DiscoverPage.tsx:118-120 | defined as the sort by vote sliced to twenty; specified by RankedTop and RankedSpec |
| DiscoverPage.RecommendationsFor | src/pages/DiscoverPage.tsx:98-124 | defined as the whole recommendations row; specified by RecommendationsForSpec and LoadRecommendations |
| LibraryPage.Filtered | src/pages/LibraryPage.tsx:52-59 | defined as the type and title-query filter; specified by FilteredMembers |
| LibraryPage.Displayed | src/pages/LibraryPage.tsx:51-76 | defined as the filter followed by the chosen sort; specified by DisplayedSpec, DisplayedMatch and RecentIsNewestFirst |
| QuickAdd.QuickAddEffect | src/pages/DiscoverPage.tsx:146-189 | defined as the update of an existing row or the insert of a new one; specified by QuickAddExisting, QuickAddNew and QuickAddRefusesOtherTypes |
| MediaDetail.SaveEffect | src/components/MediaDetail.tsx:79-112 | defined as the update of the row on view or the insert of a new record; specified by SaveExisting, SaveNew and SaveNewThenFound |
| SettingsPage.Step | src/pages/SettingsPage.tsx:95-113 | defined as one turn of the import loop; specified by ImportStopped, ImportCount, ImportNull and ImportSkipsAll |
| SettingsPage.ImportAll | src/pages/SettingsPage.tsx:95-113 | defined as the loop over the elements; specified by ImportBackup, ImportStopped, ImportCount and ImportNull |
| SettingsPage.Importable | src/pages/SettingsPage.tsx:96 | defined as the `continue` guard negated; specified by ImportCount and ImportSkipsAll |
| SettingsPage.StatusOrWatched | src/pages/SettingsPage.tsx:107 | defined as `item.status \|\| "watched"`; specified by Record |
| Tmdb.FilterByType | src/pages/DiscoverPage.tsx:191-194 | defined as the type filter of a result list; specified by FilterByTypeSpec |
| Tmdb.KeepMoviesAndShows | src/lib/tmdb.ts:16-19 | defined as the movie/tv filter; specified by KeepMoviesAndShowsSpec |
| Tmdb.PosterUrl | src/lib/tmdb.ts:102-105 | defined as ImageUrl with the default size w342; specified by ImageUrl, ImageUrlRoundTrip and DefaultSizes |
| Tmdb.BackdropUrl | src/lib/tmdb.ts:107-110 | defined as ImageUrl with the default size w1280; specified by ImageUrl, ImageUrlRoundTrip and DefaultSizes |
| Tmdb.PopularMovies | src/lib/tmdb.ts:34-43 | defined as the stamped list of the popular-movies response; specified by StampedListSpec |
| Tmdb.PopularTv | src/lib/tmdb.ts:45-54 | defined as the stamped list of the popular-TV response; specified by StampedListSpec |
| Tmdb.TopRatedMovies | src/lib/tmdb.ts:56-65 | defined as the stamped list of the top-rated-movies response; specified by StampedListSpec |
| Tmdb.TopRatedTv | src/lib/tmdb.ts:67-76 | defined as the stamped list of the top-rated-TV response; specified by StampedListSpec |
| Theme.Hue2Rgb | src/lib/theme.ts:209-216 | defined as the wrap and the interpolation branches of `hue2rgb`; specified by Hue2RgbBetween and WrapTurn |
| Theme.DominantOf | src/lib/theme.ts:182-192 | defined as the mean of the fullest bucket, or the (150, 40) fallback; specified by DominantOfBounds, DominantInChosenBucket and FallbackIffNothingAccepted |
| RatingStars.HalfStep | src/components/RatingStars.tsx:65-81 | defined as k half stars; specified by ClickValueIsHalfStep and TotalFillIsRating |

## Left out

- Image decoding, canvas drawing and resampling, the JPEG re-encode and the `FileReader`/`Image` callbacks in `src/lib/theme.ts` are browser calls. The model takes the 100 × 100 RGBA buffer as input.
- `applyTheme`, `saveTheme` and `loadTheme` write CSS variables and `localStorage`. This is DOM and storage I/O.
- Theme.ResizeDimensions: requires positive image and bound sizes. A zero-sized image would divide by zero (giving `Infinity` in JavaScript), and that case is not modelled.
- Theme.ExtractDominantColor: the buffer length is taken to be a multiple of 4, as `getImageData` always returns. A trailing partial pixel would read `undefined` and is not modelled.
- Floating point: all arithmetic is on exact reals, so IEEE-754 rounding is not reproduced. For example, `r += 0.5` is exact, and `Math.round` is floor(x + 0.5).
- The SQLite engine is not modelled: no SQL parser, no `Database.load`, and no `datetime('now')` clock, which is the `now` parameter instead. Statement effects are stated on the rows.
- `Database.SqlText` renders the UPDATE text, but nothing reads it back.
- Database.UpsertPresentInPlace: the model keeps its id counter when an upsert merges into an existing row. The `media` table is `AUTOINCREMENT`, and SQLite can use up the rowid it allotted to an upsert that ends in `DO UPDATE`, so the next inserted row may get a higher id than the model's. The model promises only what holds either way: ids stay unique, and each new row's id is above every stored id.
- Tie order under `ORDER BY` is unspecified in SQL. The model's stable sort keeps rowid order for ties.
- The table's column types come from `WellTyped`, which stands in for the TypeScript types. `UpdateMedia` requires it, because a `Partial<MediaItem>` cannot carry a text rating or a non-status string in `status`.
- The `user_rating INTEGER` column: SQLite stores a half-star value such as 3.5 as a REAL under that affinity. The model stores ratings as reals.
- HTTP `fetch`, the API key, URL encoding and JSON decoding in `src/lib/tmdb.ts` are network I/O. A response is modelled as an `ok` flag and optional results, and `getMediaDetails` as a `Result` parameter.
- `Promise.all` parallel loading, the 350 ms debounce timer, the message-clearing timers and the loading and saving flags are timing and UI state. A scheduled search is the `pending` field of `SearchState`, and the timer firing is `RunPendingSearch`.
- The clear button of the search page does not clear the debounce timer. `SearchPage.SearchState.Clear` keeps a scheduled search, so results can reappear after a clear. The model records this behaviour as written.
- `localeCompare` is the lexicographic order on character codes, and `toLowerCase` is ASCII case folding. Locale collation and Unicode case mapping are not modelled.
- `Object.entries` lists integer-like keys first in JavaScript. The tallies keep first-insertion order for every key, which only affects ties in the genre and year sorts.
- `toFixed` and the success messages other than the import's are display formatting.
- StatsPage.BumpCounts / StatsPage.GenreTallyCounts: the tally is a map with no prototype, so every token counts 1, 2, …. The source counts into a plain `{}`, which inherits from `Object.prototype`. For a token that names an inherited member ("constructor", "toString", "valueOf", "hasOwnProperty", …), `(genreCounts[g] || 0) + 1` reads the inherited function and stores a string such as `"function Object() { [native code] }1"`. Sorting by `b[1] - a[1]` then compares NaN for that entry, and `maxGenreCount` can be that string. For the token "__proto__", the assignment of a string is ignored, so it is never counted. Genres reach the tally unchecked from a backup file. The model does not capture this. No inherited member name is four characters long or shorter, so the year tally (keys of at most four characters) is not affected.
- StatsPage.DistCounts: JavaScript's `Object.values` lists the integer-like keys 1 to 5 before 0.5, 1.5, …, 4.5. The model lists the counts in half-step order, and only their maximum is read.
- StatsPage.RatingDistribution: values in the model are exact reals, so the lookup `ratingDist[r]` matches a key exactly when the rating equals it. The string conversion of JavaScript object keys is not modelled.
- SettingsPage.ImportBackup: a file that fails `JSON.parse` and a parsed value that is not an array are the same `None` input. Each parsed element is `None` for a JSON `null` or a `BackupItem` with optional fields; an element that is a number, string or array reads every field as `undefined` and is skipped like an item without fields, so it is given as a `BackupItem` whose fields are all absent. A `media_type` or `status` outside the allowed values makes `addMedia` fail on the CHECK, which ends the import with the failure message, as the thrown error does.
- MediaDetail.DetailState.HandleSave: the `onSave` callback and the success messages are left out. A failing re-fetch is not modelled, because the lookup is a function of the rows.
- MediaDetail.DetailState.HandleDelete: `deleteMedia` cannot fail in the model, so the "Failed to delete." path is not modelled.
- Pure JSX with no logic is not modelled: `src/App.tsx`, `src/components/TopNav.tsx`, `src/components/MediaCard.tsx`, `src/components/MediaRow.tsx` and `tailwind.config.js`.
- The watchlist page is not part of this model.
