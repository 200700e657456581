/** The "Because you liked" row of src/pages/DiscoverPage.tsx (`loadSections`): the
    recommendations for the five best-rated library items, merged without repeats,
    without anything already in the library, best-voted first and at most twenty. */
module DiscoverPage {
  import opened Opt
  import opened Seqs
  import opened Types
  import opened Tmdb
  import opened Database

  /** `new Set(allMedia.map(item => `${item.tmdb_id}-${item.media_type}`))` */
  function LibraryKeys(allMedia: seq<MediaItem>): set<Key> {
    set x | x in allMedia :: ItemKey(x)
  }

  /** The keys of a list of results. */
  function KeysOf(r: seq<TmdbResult>): set<Key> {
    set x | x in r :: ResultKey(x)
  }

  /** `allRecs` after the loops have visited `s`: each result whose key is neither in
      the library nor already taken is appended. */
  function Fresh(s: seq<TmdbResult>, library: set<Key>): seq<TmdbResult>
    decreases |s|
  {
    if s == [] then []
    else
      var r := Fresh(s[..|s| - 1], library);
      var x := s[|s| - 1];
      if ResultKey(x) !in KeysOf(r) && ResultKey(x) !in library then r + [x] else r
  }

  /** No result before position `j` of `s` has the key of `s[j]`. */
  ghost predicate FirstOfKey(s: seq<TmdbResult>, j: int)
    requires 0 <= j < |s|
  {
    forall m :: 0 <= m < j ==> ResultKey(s[m]) != ResultKey(s[j])
  }

  /** `x` is the first result of its key in `s`. */
  ghost predicate FirstIn(s: seq<TmdbResult>, x: TmdbResult) {
    exists j :: 0 <= j < |s| && s[j] == x && FirstOfKey(s, j)
  }

  /** The merge takes no two results with the same key. */
  lemma {:induction false} FreshDistinct(s: seq<TmdbResult>, library: set<Key>)
    ensures forall i, j :: 0 <= i < j < |Fresh(s, library)| ==>
      ResultKey(Fresh(s, library)[i]) != ResultKey(Fresh(s, library)[j])
    decreases |s|
  {
    if s != [] {
      var init, x := s[..|s| - 1], s[|s| - 1];
      FreshDistinct(init, library);
      var r0 := Fresh(init, library);
      if ResultKey(x) !in KeysOf(r0) && ResultKey(x) !in library {
        var r := r0 + [x];
        assert Fresh(s, library) == r;
        forall i, j | 0 <= i < j < |r| ensures ResultKey(r[i]) != ResultKey(r[j]) {
          if j == |r0| {
            assert r0[i] in r0;
          } else {
            assert r[i] == r0[i] && r[j] == r0[j];
          }
        }
      }
    }
  }

  /** The merge never takes a library key, and takes every other key of its input. */
  lemma {:induction false} FreshKeys(s: seq<TmdbResult>, library: set<Key>)
    ensures forall i :: 0 <= i < |Fresh(s, library)| ==> ResultKey(Fresh(s, library)[i]) !in library
    ensures forall m :: 0 <= m < |s| ==> ResultKey(s[m]) in library || ResultKey(s[m]) in KeysOf(Fresh(s, library))
    decreases |s|
  {
    if s != [] {
      var init, x := s[..|s| - 1], s[|s| - 1];
      FreshKeys(init, library);
      var r0 := Fresh(init, library);
      assert forall m :: 0 <= m < |init| ==> init[m] == s[m];
      if ResultKey(x) !in KeysOf(r0) && ResultKey(x) !in library {
        var r := r0 + [x];
        assert Fresh(s, library) == r;
        assert KeysOf(r) == KeysOf(r0) + {ResultKey(x)};
        assert forall i :: 0 <= i < |r0| ==> r[i] == r0[i];
      }
    }
  }

  /** The result the merge keeps for a key is the first one with that key in scan
      order. */
  lemma {:induction false} FreshFirst(s: seq<TmdbResult>, library: set<Key>)
    ensures forall i :: 0 <= i < |Fresh(s, library)| ==>
      exists j :: 0 <= j < |s| && s[j] == Fresh(s, library)[i] && FirstOfKey(s, j)
    decreases |s|
  {
    if s != [] {
      var init, x := s[..|s| - 1], s[|s| - 1];
      FreshFirst(init, library);
      var r0 := Fresh(init, library);
      var r := Fresh(s, library);
      assert forall i :: 0 <= i < |r0| ==> exists j :: 0 <= j < |init| && init[j] == r0[i] && FirstOfKey(init, j);
      assert forall m :: 0 <= m < |init| ==> init[m] == s[m];
      forall i | 0 <= i < |r0| ensures exists j :: 0 <= j < |s| && s[j] == r0[i] && FirstOfKey(s, j) {
        var j :| 0 <= j < |init| && init[j] == r0[i] && FirstOfKey(init, j);
        assert s[j] == r0[i] && FirstOfKey(s, j);
      }
      if ResultKey(x) !in KeysOf(r0) && ResultKey(x) !in library {
        FreshKeys(init, library);
        forall m | 0 <= m < |init| ensures ResultKey(s[m]) != ResultKey(x) {
          assert ResultKey(init[m]) in library || ResultKey(init[m]) in KeysOf(r0);
        }
        assert FirstOfKey(s, |s| - 1);
        assert r == r0 + [x];
        forall i | 0 <= i < |r| ensures exists j :: 0 <= j < |s| && s[j] == r[i] && FirstOfKey(s, j) {
          if i == |r0| {
            assert s[|s| - 1] == r[i];
          } else {
            assert r[i] == r0[i];
          }
        }
      } else {
        assert r == r0;
        forall i | 0 <= i < |r| ensures exists j :: 0 <= j < |s| && s[j] == r[i] && FirstOfKey(s, j) {
          assert r[i] == r0[i];
        }
      }
      assert forall i :: 0 <= i < |r| ==> exists j :: 0 <= j < |s| && s[j] == r[i] && FirstOfKey(s, j);
    } else {
      assert Fresh(s, library) == [];
    }
  }

  /** One more result: appended exactly when its key is new and not in the library. */
  lemma FreshAppend(s: seq<TmdbResult>, x: TmdbResult, library: set<Key>)
    ensures var r := Fresh(s, library);
      Fresh(s + [x], library) == if ResultKey(x) !in KeysOf(r) && ResultKey(x) !in library then r + [x] else r
  {
    assert (s + [x])[..|s|] == s;
  }

  lemma KeysOfAppend(r: seq<TmdbResult>, x: TmdbResult)
    ensures KeysOf(r + [x]) == KeysOf(r) + {ResultKey(x)}
  {
  }

  /** The nested `for ... of` loops over `recResults`, with the `seen` set. */
  method MergeRecommendations(recResults: seq<seq<TmdbResult>>, library: set<Key>)
    returns (allRecs: seq<TmdbResult>)
    ensures allRecs == Fresh(Flatten(recResults), library)
  {
    var seen: set<Key> := {};
    allRecs := [];
    for i := 0 to |recResults|
      invariant allRecs == Fresh(Flatten(recResults[..i]), library)
      invariant seen == KeysOf(allRecs)
    {
      var recs := recResults[i];
      assert recResults[..i + 1][..i] == recResults[..i];
      ghost var before := Flatten(recResults[..i]);
      assert before + recs[..0] == before;
      for j := 0 to |recs|
        invariant allRecs == Fresh(before + recs[..j], library)
        invariant seen == KeysOf(allRecs)
      {
        var rec := recs[j];
        assert before + recs[..j + 1] == (before + recs[..j]) + [rec];
        FreshAppend(before + recs[..j], rec, library);
        var key := ResultKey(rec);
        if key !in seen && key !in library {
          KeysOfAppend(allRecs, rec);
          seen := seen + {key};
          allRecs := allRecs + [rec];
        }
      }
      assert recs[..|recs|] == recs;
    }
    assert recResults[..|recResults|] == recResults;
  }

  /** `.sort((a, b) => b.vote_average - a.vote_average)` */
  predicate VoteDesc(a: TmdbResult, b: TmdbResult) {
    a.voteAverage >= b.voteAverage
  }

  /** The merged list, best-voted first, cut to twenty. */
  function Ranked(allRecs: seq<TmdbResult>): seq<TmdbResult> {
    Take(SortBy(allRecs, VoteDesc), 20)
  }

  /** The recommendation lists asked for: one per top-rated item, with that item's type
      as the fallback type. */
  function RecResults(topRated: seq<MediaItem>, responses: seq<Response>): (r: seq<seq<TmdbResult>>)
    requires |responses| == |topRated|
    ensures |r| == |topRated|
  {
    seq(|topRated|, i requires 0 <= i < |topRated| => Recommendations(responses[i], topRated[i].mediaType))
  }

  /** The recommendations the page shows for the table's rows. `responses` are the
      answers to the recommendation requests, one per top-rated item, or `None` when
      one of the requests threw (the page then shows none). */
  function RecommendationsFor(rows: seq<MediaItem>, responses: Option<seq<Response>>): seq<TmdbResult>
    requires responses.Some? ==> |responses.value| == |TopRated(rows, 5)|
  {
    var topRated := TopRated(rows, 5);
    if |topRated| == 0 || responses.None? then []
    else Ranked(Fresh(Flatten(RecResults(topRated, responses.value)), LibraryKeys(AllMedia(rows))))
  }

  /** The recommendation part of `loadSections`. */
  method LoadRecommendations(rows: seq<MediaItem>, responses: Option<seq<Response>>)
    returns (recommendations: seq<TmdbResult>)
    requires responses.Some? ==> |responses.value| == |TopRated(rows, 5)|
    ensures recommendations == RecommendationsFor(rows, responses)
  {
    var libraryKeys := LibraryKeys(AllMedia(rows));
    recommendations := [];
    var topRated := TopRated(rows, 5);
    if |topRated| > 0 && responses.Some? {
      var recResults := RecResults(topRated, responses.value);
      var allRecs := MergeRecommendations(recResults, libraryKeys);
      recommendations := Ranked(allRecs);
    }
  }

  /** The library keys are the keys of the rows, whatever order they come in. */
  lemma LibraryKeysOfAllMedia(rows: seq<MediaItem>)
    ensures LibraryKeys(AllMedia(rows)) == set x | x in rows :: ItemKey(x)
  {
    AllMediaSpec(rows);
    forall x ensures x in AllMedia(rows) <==> x in rows {
      assert x in AllMedia(rows) <==> x in multiset(AllMedia(rows));
    }
  }

  /** The twenty best-voted of a list, best first: the first min(20, list) of the
      list sorted by vote, and nothing left out has a higher vote than anything kept. */
  lemma RankedTop(allRecs: seq<TmdbResult>)
    ensures var sorted := SortBy(allRecs, VoteDesc);
      var r := Ranked(allRecs);
      && multiset(sorted) == multiset(allRecs)
      && |r| == (if |allRecs| <= 20 then |allRecs| else 20)
      && r == sorted[..|r|]
      && Sorted(r, VoteDesc)
      && (forall i, j :: 0 <= i < |r| <= j < |sorted| ==> sorted[j].voteAverage <= r[i].voteAverage)
  {
    var sorted := SortBy(allRecs, VoteDesc);
    SortBySorted(allRecs, VoteDesc);
    TakeSorted(sorted, 20, VoteDesc);
    var r := Ranked(allRecs);
    forall i, j | 0 <= i < |r| <= j < |sorted| ensures sorted[j].voteAverage <= r[i].voteAverage {
      assert VoteDesc(r[i], sorted[j]);
    }
  }

  /** Every ranked result comes from the list. */
  lemma RankedFrom(allRecs: seq<TmdbResult>)
    ensures forall x :: x in Ranked(allRecs) ==> x in allRecs
  {
    var sorted := SortBy(allRecs, VoteDesc);
    forall x | x in Ranked(allRecs) ensures x in allRecs {
      assert x in sorted;
      assert x in multiset(sorted);
    }
  }

  /** Ranking a list with one result per key keeps one result per key. */
  lemma RankedDistinct(allRecs: seq<TmdbResult>)
    requires forall i, j :: 0 <= i < j < |allRecs| ==> ResultKey(allRecs[i]) != ResultKey(allRecs[j])
    ensures var r := Ranked(allRecs);
      forall i, j :: 0 <= i < j < |r| ==> ResultKey(r[i]) != ResultKey(r[j])
  {
    var sorted := SortBy(allRecs, VoteDesc);
    assert DistinctBy(allRecs, ResultKey);
    SortByDistinct(allRecs, VoteDesc, ResultKey);
    assert forall i :: 0 <= i < |Ranked(allRecs)| ==> Ranked(allRecs)[i] == sorted[i];
  }

  /** A result kept by the merge has a key outside the library and is the first
      result of its key among the merged lists. */
  lemma FreshMember(s: seq<TmdbResult>, library: set<Key>, x: TmdbResult)
    requires x in Fresh(s, library)
    ensures ResultKey(x) !in library
    ensures FirstIn(s, x)
  {
    FreshKeys(s, library);
    FreshFirst(s, library);
    var k :| 0 <= k < |Fresh(s, library)| && Fresh(s, library)[k] == x;
    var j :| 0 <= j < |s| && s[j] == Fresh(s, library)[k] && FirstOfKey(s, j);
  }

  /** Results taken from the merge have keys outside the library, each the first
      result of its key among the merged lists. */
  lemma FreshMembers(s: seq<TmdbResult>, library: set<Key>, r: seq<TmdbResult>)
    requires forall x :: x in r ==> x in Fresh(s, library)
    ensures forall i :: 0 <= i < |r| ==> ResultKey(r[i]) !in library
    ensures forall i :: 0 <= i < |r| ==> FirstIn(s, r[i])
  {
    forall i | 0 <= i < |r|
      ensures ResultKey(r[i]) !in library && FirstIn(s, r[i])
    {
      assert r[i] in r;
      FreshMember(s, library, r[i]);
    }
  }

  /** The ranked merge: at most twenty, best-voted first (RankedTop), one per key, none
      of them in the library, each the first occurrence of its key among the merged
      lists. */
  lemma RankedSpec(allRecs: seq<TmdbResult>, s: seq<TmdbResult>, library: set<Key>)
    requires allRecs == Fresh(s, library)
    ensures var r := Ranked(allRecs);
      && |r| <= 20
      && Sorted(r, VoteDesc)
      && (forall i, j :: 0 <= i < j < |r| ==> ResultKey(r[i]) != ResultKey(r[j]))
      && (forall i :: 0 <= i < |r| ==> ResultKey(r[i]) !in library)
      && (forall i :: 0 <= i < |r| ==> FirstIn(s, r[i]))
  {
    var r := Ranked(allRecs);
    RankedTop(allRecs);
    assert |r| <= 20 && Sorted(r, VoteDesc);
    FreshDistinct(s, library);
    RankedDistinct(allRecs);
    RankedFrom(allRecs);
    FreshMembers(s, library, r);
  }

  /** What the page shows: nothing without top-rated items or when a request threw;
      otherwise min(20, fresh) results, where the fresh results are the merged
      recommendations not in the library, so some are shown whenever some are fresh;
      best-voted first, one per key, none of them already in the library. */
  lemma RecommendationsForSpec(rows: seq<MediaItem>, responses: Option<seq<Response>>)
    requires responses.Some? ==> |responses.value| == |TopRated(rows, 5)|
    ensures |TopRated(rows, 5)| == 0 || responses.None? ==> RecommendationsFor(rows, responses) == []
    ensures |TopRated(rows, 5)| > 0 && responses.Some? ==>
      var merged := Fresh(Flatten(RecResults(TopRated(rows, 5), responses.value)), LibraryKeys(AllMedia(rows)));
      |RecommendationsFor(rows, responses)| == if |merged| <= 20 then |merged| else 20
    ensures var r := RecommendationsFor(rows, responses);
      && |r| <= 20
      && Sorted(r, VoteDesc)
      && (forall i, j :: 0 <= i < j < |r| ==> ResultKey(r[i]) != ResultKey(r[j]))
      && (forall i, x :: 0 <= i < |r| && x in rows ==> ResultKey(r[i]) != ItemKey(x))
  {
    var topRated := TopRated(rows, 5);
    if |topRated| > 0 && responses.Some? {
      var s := Flatten(RecResults(topRated, responses.value));
      var library := LibraryKeys(AllMedia(rows));
      RankedSpec(Fresh(s, library), s, library);
      LibraryKeysOfAllMedia(rows);
    }
  }
}
