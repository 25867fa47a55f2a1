/** The debug summary page: the same statistics as the slideshow on a fixed list of
    dramas, plus its own top-three genre ranking built from a plain object of counts. */
module DebugSummary {
  import opened Wrappers
  import opened Actions
  import opened GenreMapping
  import opened VibeCalculator
  import opened WrappedFlow

  /** What the page renders. */
  datatype Summary = Summary(
    topDramas: seq<EnrichedDrama>,
    dramaCount: nat,
    episodeCount: nat,
    totalHours: nat,
    topGenres: seq<Genre>,
    vibe: Result<VibeType, string>)

  /** `Object.entries(genreCounts)` sorted by count, largest first, then `slice(0, 3)`.
      String keys keep their insertion order, so the entries are the tally in order of
      first appearance. */
  function TopGenreLabels(dramas: seq<EnrichedDrama>): seq<Genre>
  {
    Top3(Rank(Tally(AllLabels(dramas))))
  }

  /** `xs.flatMap(f)`. */
  function FlatMap<T>(xs: seq<T>, f: T -> seq<Genre>): seq<Genre>
  {
    if xs == [] then [] else FlatMap(xs[..|xs| - 1], f) + f(xs[|xs| - 1])
  }

  /** The number of elements of `xs` whose list under `f` holds `g`. */
  function Having<T>(xs: seq<T>, f: T -> seq<Genre>, g: Genre): nat
  {
    if xs == [] then 0 else Having(xs[..|xs| - 1], f, g) + (if g in f(xs[|xs| - 1]) then 1 else 0)
  }

  /** The number of dramas among whose top genres `g` appears. */
  function DramasWith(dramas: seq<EnrichedDrama>, g: Genre): nat
  {
    Having(dramas, TopGenres, g)
  }

  /** The page's computation, in order: the first three dramas, the totals, the genre
      counts folded into an object, their ranking, and the vibe. */
  method Summarize(dramas: seq<EnrichedDrama>) returns (s: Summary)
    ensures s.topDramas == Favorites(dramas) && s.dramaCount == |dramas|
    ensures s.episodeCount == EpisodeCount(dramas) && s.totalHours == TotalHours(dramas)
    ensures s.topGenres == TopGenreLabels(dramas)
    ensures s.vibe == Vibe(dramas)
  {
    var genreCounts, _ := CountGenres(dramas);
    var vibe := CalculateVibe(dramas);
    s := Summary(Favorites(dramas), |dramas|, EpisodeCount(dramas), TotalHours(dramas),
                 Top3(Rank(genreCounts)), vibe);
  }

  // ------------------------------------------------------------------
  // Counting
  // ------------------------------------------------------------------

  lemma {:induction false} NoRepeatsOnce(s: seq<Genre>, g: Genre)
    requires NoRepeats(s)
    ensures multiset(s)[g] == if g in s then 1 else 0
  {
    if s != [] {
      var init := s[..|s| - 1];
      assert s == init + [s[|s| - 1]];
      assert NoRepeats(init);
      NoRepeatsOnce(init, g);
    }
  }

  /** The page's `flatMap(getTopGenres)` is the list the vibe counts. */
  lemma {:induction false} AllLabelsFlatMap(dramas: seq<EnrichedDrama>)
    ensures AllLabels(dramas) == FlatMap(dramas, TopGenres)
  {
    if dramas != [] {
      AllLabelsFlatMap(dramas[..|dramas| - 1]);
    }
  }

  /** When no list under `f` repeats a genre, a genre occurs in the flattened list once
      per element having it. */
  lemma {:induction false} FlatMapMultiplicity<T>(xs: seq<T>, f: T -> seq<Genre>, g: Genre)
    requires forall i :: 0 <= i < |xs| ==> NoRepeats(f(xs[i]))
    ensures multiset(FlatMap(xs, f))[g] == Having(xs, f, g)
  {
    if xs != [] {
      var init := xs[..|xs| - 1];
      assert forall i :: 0 <= i < |init| ==> init[i] == xs[i];
      FlatMapMultiplicity(init, f, g);
      NoRepeatsOnce(f(xs[|xs| - 1]), g);
    }
  }

  /** Every genre in the flattened list comes from some element. */
  lemma {:induction false} FlatMapSource<T>(xs: seq<T>, f: T -> seq<Genre>, g: Genre) returns (i: nat)
    requires g in FlatMap(xs, f)
    ensures i < |xs| && g in f(xs[i])
  {
    var init := xs[..|xs| - 1];
    if g in f(xs[|xs| - 1]) {
      i := |xs| - 1;
    } else {
      i := FlatMapSource(init, f, g);
      assert init[i] == xs[i];
    }
  }

  /** And every genre of every element is in it. */
  lemma {:induction false} FlatMapHolds<T>(xs: seq<T>, f: T -> seq<Genre>, i: nat, g: Genre)
    requires i < |xs| && g in f(xs[i])
    ensures g in FlatMap(xs, f)
  {
    var init := xs[..|xs| - 1];
    if i < |init| {
      assert init[i] == xs[i];
      FlatMapHolds(init, f, i, g);
    }
  }

  /** A genre is among all the dramas' top genres exactly when some drama has it. */
  lemma LabelMembers(dramas: seq<EnrichedDrama>, g: Genre)
    ensures g in AllLabels(dramas) <==> exists i :: 0 <= i < |dramas| && g in TopGenres(dramas[i])
  {
    AllLabelsFlatMap(dramas);
    FlatMapMembers(dramas, TopGenres, g);
  }

  lemma FlatMapMembers<T>(xs: seq<T>, f: T -> seq<Genre>, g: Genre)
    ensures g in FlatMap(xs, f) <==> exists i :: 0 <= i < |xs| && g in f(xs[i])
  {
    if g in FlatMap(xs, f) {
      var i := FlatMapSource(xs, f, g);
    }
    forall i | 0 <= i < |xs| && g in f(xs[i])
      ensures g in FlatMap(xs, f)
    {
      FlatMapHolds(xs, f, i, g);
    }
  }

  /** The count kept for each genre is the number of dramas having it among their top
      genres. */
  lemma GenreCountIsDramaCount(dramas: seq<EnrichedDrama>, g: Genre)
    ensures Lookup(Tally(AllLabels(dramas)), g) == DramasWith(dramas, g)
  {
    TallyProps(AllLabels(dramas));
    AllLabelsFlatMap(dramas);
    forall i | 0 <= i < |dramas|
      ensures NoRepeats(TopGenres(dramas[i]))
    {
      TopGenresShape(dramas[i]);
    }
    FlatMapMultiplicity(dramas, TopGenres, g);
  }

  /** The counts add up to the number of labels the page flattened. */
  lemma GenreCountsSum(dramas: seq<EnrichedDrama>)
    ensures Sum(Tally(AllLabels(dramas))) == |FlatMap(dramas, TopGenres)|
  {
    TallyProps(AllLabels(dramas));
    AllLabelsFlatMap(dramas);
  }

  // ------------------------------------------------------------------
  // The ranking of a tally
  // ------------------------------------------------------------------

  lemma {:induction false} OneCopy(c: Counts, e: (Genre, nat))
    requires DistinctKeys(c)
    ensures multiset(c)[e] <= 1
  {
    if c != [] {
      var init := c[..|c| - 1];
      assert c == init + [c[|c| - 1]];
      OneCopy(init, e);
      if c[|c| - 1] == e {
        assert forall k :: 0 <= k < |init| ==> init[k].0 != e.0;
        assert e !in init;
      }
    }
  }

  lemma TwoCopies(s: Counts, i: nat, j: nat)
    requires i < j < |s| && s[i] == s[j]
    ensures multiset(s)[s[i]] >= 2
  {
    assert s == s[..j] + s[j..];
    assert s[i] in s[..j];
    assert s[j] == s[j..][0];
  }

  /** A reordering of a tally is again a tally: its keys are distinct and each entry
      carries its genre's count. */
  lemma PermutedTally(s: Counts, c: Counts)
    requires DistinctKeys(c) && multiset(s) == multiset(c)
    ensures forall i :: 0 <= i < |s| ==> Lookup(c, s[i].0) == s[i].1
    ensures DistinctKeys(s)
  {
    forall i | 0 <= i < |s|
      ensures Lookup(c, s[i].0) == s[i].1
    {
      assert s[i] in multiset(c);
      var k :| 0 <= k < |c| && c[k] == s[i];
      LookupEntry(c, k);
    }
    forall i, j | 0 <= i < j < |s|
      ensures s[i].0 != s[j].0
    {
      if s[i].0 == s[j].0 {
        TwoCopies(s, i, j);
        OneCopy(c, s[i]);
      }
    }
  }

  /** Every counted genre has a place in the ranking of its tally. */
  lemma RankHolds(c: Counts, g: Genre)
    requires Counted(c, g)
    ensures exists p :: 0 <= p < |Rank(c)| && Rank(c)[p] == c[Find(c, g)]
  {
    RankPermutes(c);
    assert c[Find(c, g)] in multiset(Rank(c));
  }

  /** The first three genres of a ranked tally are all different. */
  lemma RankTopDistinct(c: Counts)
    requires DistinctKeys(c)
    ensures |Top3(Rank(c))| <= 3 && NoRepeats(Top3(Rank(c)))
  {
    RankPermutes(c);
    PermutedTally(Rank(c), c);
  }

  /** And all counted. */
  lemma RankTopCounted(c: Counts)
    ensures forall k :: 0 <= k < |Top3(Rank(c))| ==> Counted(c, Top3(Rank(c))[k])
  {
    var s := Rank(c);
    RankPermutes(c);
    forall k | 0 <= k < |Top3(s)|
      ensures Counted(c, Top3(s)[k])
    {
      assert s[k] in multiset(c);
      var m :| 0 <= m < |c| && c[m] == s[k];
    }
  }

  /** They come in decreasing order of count. */
  lemma RankTopOrdered(c: Counts)
    requires DistinctKeys(c)
    ensures var r := Top3(Rank(c));
      forall i, j :: 0 <= i < j < |r| ==> Lookup(c, r[i]) >= Lookup(c, r[j])
  {
    var s := Rank(c);
    var r := Top3(s);
    RankPermutes(c);
    RankSorted(c);
    PermutedTally(s, c);
    forall i, j | 0 <= i < j < |r|
      ensures Lookup(c, r[i]) >= Lookup(c, r[j])
    {
      assert r[i] == s[i].0 && r[j] == s[j].0;
      assert s[i].1 >= s[j].1;
    }
  }

  /** Genres with equal counts keep their tally order. */
  lemma RankTopTies(c: Counts)
    requires DistinctKeys(c)
    ensures var r := Top3(Rank(c));
      forall i, j :: 0 <= i < j < |r| && Lookup(c, r[i]) == Lookup(c, r[j]) ==>
        0 <= Find(c, r[i]) < Find(c, r[j])
  {
    var r := Top3(Rank(c));
    forall i, j | 0 <= i < j < |r| && Lookup(c, r[i]) == Lookup(c, r[j])
      ensures 0 <= Find(c, r[i]) < Find(c, r[j])
    {
      RankTopTie(c, r, i, j);
    }
  }

  /** `RankTopTies` for one pair of positions. */
  lemma RankTopTie(c: Counts, r: seq<Genre>, i: nat, j: nat)
    requires DistinctKeys(c) && r == Top3(Rank(c))
    requires i < j < |r| && Lookup(c, r[i]) == Lookup(c, r[j])
    ensures 0 <= Find(c, r[i]) < Find(c, r[j])
  {
    var s := Rank(c);
    RankPermutes(c);
    PermutedTally(s, c);
    assert r[i] == s[i].0 && r[j] == s[j].0;
    RankedTies(c, s, i, j);
  }

  /** Two ranked entries with equal counts are in their tally order. */
  lemma RankedTies(c: Counts, s: Counts, i: nat, j: nat)
    requires DistinctKeys(c) && s == Rank(c) && i < j < |s| && s[i].1 == s[j].1
    ensures 0 <= Find(c, s[i].0) < Find(c, s[j].0)
  {
    RankPermutes(c);
    PermutedTally(s, c);
    var a := Find(c, s[i].0);
    var b := Find(c, s[j].0);
    RankedEntry(c, s, i);
    RankedEntry(c, s, j);
    if b < a {
      RankTies(c, b, a);
      NotBefore(s, i, j);
      assert false;
    }
  }

  /** With distinct keys, a later entry never comes before an earlier one. */
  lemma NotBefore(s: Counts, i: nat, j: nat)
    requires DistinctKeys(s) && i < j < |s|
    ensures !Before(s, s[j], s[i])
  {
  }

  /** The entry ranked at `i` is the tally's entry for its genre. */
  lemma RankedEntry(c: Counts, s: Counts, i: nat)
    requires DistinctKeys(c) && multiset(s) == multiset(c) && i < |s|
    ensures 0 <= Find(c, s[i].0) && c[Find(c, s[i].0)] == s[i]
  {
    assert s[i] in multiset(c);
    var m :| 0 <= m < |c| && c[m] == s[i];
    FindUnique(c, s[i].0, m);
  }

  /** No genre left out counts more than the third. */
  lemma RankTopMaximal(c: Counts, g: Genre)
    requires DistinctKeys(c) && Counted(c, g) && g !in Top3(Rank(c))
    ensures |Top3(Rank(c))| == 3 && Lookup(c, g) <= Lookup(c, Top3(Rank(c))[2])
  {
    var s := Rank(c);
    RankPermutes(c);
    RankSorted(c);
    PermutedTally(s, c);
    RankHolds(c, g);
    var p :| 0 <= p < |s| && s[p] == c[Find(c, g)];
    LookupEntry(c, Find(c, g));
  }

  // ------------------------------------------------------------------
  // The page's top genres
  // ------------------------------------------------------------------

  /** At most three genres, all different, each one some drama's top genre. */
  lemma TopGenreLabelsShape(dramas: seq<EnrichedDrama>)
    ensures var r := TopGenreLabels(dramas);
      |r| <= 3 && NoRepeats(r)
      && forall k :: 0 <= k < |r| ==> exists i :: 0 <= i < |dramas| && r[k] in TopGenres(dramas[i])
  {
    var labels := AllLabels(dramas);
    var r := TopGenreLabels(dramas);
    TallyProps(labels);
    RankTopDistinct(Tally(labels));
    RankTopCounted(Tally(labels));
    forall k | 0 <= k < |r|
      ensures exists i :: 0 <= i < |dramas| && r[k] in TopGenres(dramas[i])
    {
      LabelMembers(dramas, r[k]);
    }
  }

  /** The three genres are in decreasing order of the number of dramas having them, and
      genres had by equally many dramas come in order of first appearance in the flattened
      list of top genres (the sort is stable over the keys' insertion order). */
  lemma TopGenreLabelsOrdered(dramas: seq<EnrichedDrama>)
    ensures var r := TopGenreLabels(dramas);
      forall i, j :: 0 <= i < j < |r| ==> DramasWith(dramas, r[i]) >= DramasWith(dramas, r[j])
    ensures var r := TopGenreLabels(dramas);
      forall i, j :: 0 <= i < j < |r| && DramasWith(dramas, r[i]) == DramasWith(dramas, r[j]) ==>
        SeenBefore(AllLabels(dramas), r[i], r[j])
  {
    TopGenreLabelsNonIncreasing(dramas);
    TopGenreLabelsTiesInOrder(dramas);
  }

  lemma TopGenreLabelsNonIncreasing(dramas: seq<EnrichedDrama>)
    ensures var r := TopGenreLabels(dramas);
      forall i, j :: 0 <= i < j < |r| ==> DramasWith(dramas, r[i]) >= DramasWith(dramas, r[j])
  {
    TopGenresNoRepeats(dramas);
    AllLabelsFlatMap(dramas);
    var r := TopGenreLabels(dramas);
    assert r == Top3(Rank(Tally(FlatMap(dramas, TopGenres))));
    forall i, j | 0 <= i < j < |r|
      ensures DramasWith(dramas, r[i]) >= DramasWith(dramas, r[j])
    {
      HavingOrdered(dramas, TopGenres, r, i, j);
    }
  }

  lemma TopGenreLabelsTiesInOrder(dramas: seq<EnrichedDrama>)
    ensures var r := TopGenreLabels(dramas);
      forall i, j :: 0 <= i < j < |r| && DramasWith(dramas, r[i]) == DramasWith(dramas, r[j]) ==>
        SeenBefore(AllLabels(dramas), r[i], r[j])
  {
    TopGenresNoRepeats(dramas);
    AllLabelsFlatMap(dramas);
    var r := TopGenreLabels(dramas);
    assert r == Top3(Rank(Tally(FlatMap(dramas, TopGenres))));
    forall i, j | 0 <= i < j < |r| && DramasWith(dramas, r[i]) == DramasWith(dramas, r[j])
      ensures SeenBefore(AllLabels(dramas), r[i], r[j])
    {
      HavingTies(dramas, TopGenres, r, i, j);
    }
  }

  lemma TopGenresNoRepeats(dramas: seq<EnrichedDrama>)
    ensures forall i :: 0 <= i < |dramas| ==> NoRepeats(TopGenres(dramas[i]))
  {
    forall i | 0 <= i < |dramas|
      ensures NoRepeats(TopGenres(dramas[i]))
    {
      TopGenresShape(dramas[i]);
    }
  }

  /** For lists without repeats: of the top three of the flattened list, an earlier one is
      had by at least as many elements as a later one. */
  lemma HavingOrdered<T>(xs: seq<T>, f: T -> seq<Genre>, r: seq<Genre>, i: nat, j: nat)
    requires forall k :: 0 <= k < |xs| ==> NoRepeats(f(xs[k]))
    requires r == Top3(Rank(Tally(FlatMap(xs, f)))) && i < j < |r|
    ensures Having(xs, f, r[i]) >= Having(xs, f, r[j])
  {
    var c := Tally(FlatMap(xs, f));
    TopLabelsOrdered(FlatMap(xs, f));
    assert Lookup(c, r[i]) >= Lookup(c, r[j]);
    HavingIsCount(xs, f, r[i]);
    HavingIsCount(xs, f, r[j]);
  }

  /** And two had by equally many elements come in order of first appearance. */
  lemma HavingTies<T>(xs: seq<T>, f: T -> seq<Genre>, r: seq<Genre>, i: nat, j: nat)
    requires forall k :: 0 <= k < |xs| ==> NoRepeats(f(xs[k]))
    requires r == Top3(Rank(Tally(FlatMap(xs, f)))) && i < j < |r|
    requires Having(xs, f, r[i]) == Having(xs, f, r[j])
    ensures SeenBefore(FlatMap(xs, f), r[i], r[j])
  {
    var c := Tally(FlatMap(xs, f));
    HavingIsCount(xs, f, r[i]);
    HavingIsCount(xs, f, r[j]);
    TopLabelsTies(FlatMap(xs, f));
    assert Lookup(c, r[i]) == Lookup(c, r[j]);
  }

  /** A genre's count in the tally of the flattened list is the number of elements having it. */
  lemma HavingIsCount<T>(xs: seq<T>, f: T -> seq<Genre>, g: Genre)
    requires forall i :: 0 <= i < |xs| ==> NoRepeats(f(xs[i]))
    ensures Lookup(Tally(FlatMap(xs, f)), g) == Having(xs, f, g)
  {
    TallyProps(FlatMap(xs, f));
    FlatMapMultiplicity(xs, f, g);
  }

  /** Over any list of labels: the top three come by count, largest first. */
  lemma TopLabelsOrdered(ls: seq<Genre>)
    ensures var c := Tally(ls); var r := Top3(Rank(c));
      forall i, j :: 0 <= i < j < |r| ==> Lookup(c, r[i]) >= Lookup(c, r[j])
  {
    TallyKeys(ls);
    RankTopOrdered(Tally(ls));
  }

  /** Over any list of labels: top-three genres with equal counts come in order of first
      appearance. */
  lemma TopLabelsTies(ls: seq<Genre>)
    ensures var c := Tally(ls); var r := Top3(Rank(c));
      forall i, j :: 0 <= i < j < |r| && Lookup(c, r[i]) == Lookup(c, r[j]) ==> SeenBefore(ls, r[i], r[j])
  {
    var c := Tally(ls);
    var r := Top3(Rank(c));
    TallyKeys(ls);
    forall i, j | 0 <= i < j < |r| && Lookup(c, r[i]) == Lookup(c, r[j])
      ensures SeenBefore(ls, r[i], r[j])
    {
      RankTopTie(c, r, i, j);
      TallyOrder(ls, r[i], r[j]);
    }
  }

  /** No genre left out is had by more dramas than the third. */
  lemma TopGenreLabelsMaximal(dramas: seq<EnrichedDrama>, g: Genre)
    requires g in AllLabels(dramas) && g !in TopGenreLabels(dramas)
    ensures |TopGenreLabels(dramas)| == 3
    ensures DramasWith(dramas, g) <= DramasWith(dramas, TopGenreLabels(dramas)[2])
  {
    var c := Tally(AllLabels(dramas));
    TallyProps(AllLabels(dramas));
    RankTopMaximal(c, g);
    GenreCountIsDramaCount(dramas, g);
    GenreCountIsDramaCount(dramas, TopGenreLabels(dramas)[2]);
  }
}
