/** The viewer "vibe" (`calculateVibe`): every drama's top genres are tallied in an
    insertion-ordered map, the tally is ranked by count (a stable sort, largest first), and
    five rules are tried in order on the shares and on the three best-ranked genres. */
module VibeCalculator {
  import opened Text
  import opened Wrappers
  import opened Actions
  import opened GenreMapping

  datatype VibeType = Wanderer | Detective | Healing | Romantic | TimeTraveler

  /** The string each vibe is reported as. */
  function VibeName(v: VibeType): string
  {
    match v
    case Wanderer => "wanderer"
    case Detective => "detective"
    case Healing => "healing"
    case Romantic => "romantic"
    case TimeTraveler => "time"
  }

  // ------------------------------------------------------------------
  // The tally (`Map<CustomGenre, number>`)
  // ------------------------------------------------------------------

  /** Genre counts in first-insertion order. */
  type Counts = seq<(Genre, nat)>

  /** Where `g` is stored, or -1. */
  function Find(c: Counts, g: Genre): (r: int)
    ensures -1 <= r < |c|
    ensures r >= 0 ==> c[r].0 == g && forall j :: 0 <= j < r ==> c[j].0 != g
    ensures r < 0 ==> forall j :: 0 <= j < |c| ==> c[j].0 != g
  {
    if c == [] then -1
    else if c[0].0 == g then 0
    else
      var k := Find(c[1..], g);
      if k < 0 then -1 else k + 1
  }

  /** `genreCounts.get(g) || 0`. */
  function Lookup(c: Counts, g: Genre): nat
  {
    var i := Find(c, g);
    if i < 0 then 0 else c[i].1
  }

  /** `genreCounts.set(g, (genreCounts.get(g) || 0) + 1)`: an existing key keeps its place,
      a new one goes last. */
  function Bump(c: Counts, g: Genre): Counts
  {
    var i := Find(c, g);
    if i < 0 then c + [(g, 1)] else c[i := (g, c[i].1 + 1)]
  }

  function Keys(c: Counts): (r: seq<Genre>)
    ensures |r| == |c|
    ensures forall i :: 0 <= i < |c| ==> r[i] == c[i].0
  {
    seq(|c|, i requires 0 <= i < |c| => c[i].0)
  }

  predicate DistinctKeys(c: Counts)
  {
    forall i, j :: 0 <= i < j < |c| ==> c[i].0 != c[j].0
  }

  /** The sum of the counts. */
  function Sum(c: Counts): nat
  {
    if c == [] then 0 else c[0].1 + Sum(c[1..])
  }

  /** The tally of a list of labels, counted in order. */
  function Tally(ls: seq<Genre>): Counts
  {
    if ls == [] then [] else Bump(Tally(ls[..|ls| - 1]), ls[|ls| - 1])
  }

  /** `genreCounts.has(g)`. */
  predicate Counted(c: Counts, g: Genre)
  {
    Find(c, g) >= 0
  }

  lemma CountedKeys(c: Counts, g: Genre)
    ensures Counted(c, g) <==> g in Keys(c)
  {
    if Counted(c, g) {
      assert Keys(c)[Find(c, g)] == g;
    } else {
      assert forall j :: 0 <= j < |c| ==> Keys(c)[j] != g;
    }
  }

  lemma BumpKeys(c: Counts, g: Genre)
    requires DistinctKeys(c)
    ensures DistinctKeys(Bump(c, g))
    ensures forall h :: Counted(Bump(c, g), h) <==> Counted(c, h) || h == g
  {
    var r := Bump(c, g);
    var i := Find(c, g);
    assert forall j :: 0 <= j < |c| && j != i ==> r[j] == c[j];
    forall h
      ensures Counted(r, h) <==> Counted(c, h) || h == g
    {
      if Counted(c, h) {
        assert r[Find(c, h)].0 == h;
      }
      if h == g && i < 0 {
        assert r[|c|].0 == g;
      }
      if Counted(r, h) && Find(r, h) < |c| && Find(r, h) != i {
        assert c[Find(r, h)].0 == h;
      }
    }
  }

  lemma BumpLookup(c: Counts, g: Genre, h: Genre)
    requires DistinctKeys(c)
    ensures Lookup(Bump(c, g), h) == Lookup(c, h) + (if h == g then 1 else 0)
  {
    var i := Find(c, g);
    if i < 0 {
      AppendLookup(c, g, h);
    } else {
      UpdateLookup(c, i, h);
    }
  }

  lemma AppendDistinct(c: Counts, g: Genre)
    requires DistinctKeys(c) && Find(c, g) < 0
    ensures DistinctKeys(c + [(g, 1)])
  {
    var r := c + [(g, 1)];
    forall a, b | 0 <= a < b < |r|
      ensures r[a].0 != r[b].0
    {
      assert r[a] == c[a];
      if b < |c| {
        assert r[b] == c[b];
      }
    }
  }

  lemma AppendLookup(c: Counts, g: Genre, h: Genre)
    requires DistinctKeys(c) && Find(c, g) < 0
    ensures Lookup(c + [(g, 1)], h) == Lookup(c, h) + (if h == g then 1 else 0)
  {
    var r := c + [(g, 1)];
    AppendDistinct(c, g);
    var k := Find(c, h);
    if h == g {
      FindUnique(r, h, |c|);
    } else if k >= 0 {
      AppendLookupPresent(c, g, h);
    } else {
      AppendLookupAbsent(c, g, h);
    }
  }

  lemma AppendLookupPresent(c: Counts, g: Genre, h: Genre)
    requires DistinctKeys(c + [(g, 1)]) && Find(c, h) >= 0
    ensures Lookup(c + [(g, 1)], h) == Lookup(c, h)
  {
    var k := Find(c, h);
    assert (c + [(g, 1)])[k] == c[k];
    FindUnique(c + [(g, 1)], h, k);
  }

  lemma AppendLookupAbsent(c: Counts, g: Genre, h: Genre)
    requires DistinctKeys(c + [(g, 1)]) && Find(c, h) < 0 && h != g
    ensures Lookup(c + [(g, 1)], h) == 0
  {
    var r := c + [(g, 1)];
    assert forall j :: 0 <= j < |c| ==> r[j] == c[j];
    FindUnique(r, h, -1);
  }

  lemma UpdateLookup(c: Counts, i: nat, h: Genre)
    requires DistinctKeys(c) && i < |c|
    ensures Lookup(c[i := (c[i].0, c[i].1 + 1)], h) == Lookup(c, h) + (if h == c[i].0 then 1 else 0)
  {
    var r := c[i := (c[i].0, c[i].1 + 1)];
    assert DistinctKeys(r);
    var k := Find(c, h);
    if k >= 0 {
      FindUnique(r, h, k);
    } else {
      FindUnique(r, h, -1);
    }
  }

  /** With distinct keys, `Find` returns the one position holding the key. */
  lemma FindUnique(c: Counts, g: Genre, i: int)
    requires DistinctKeys(c)
    requires (0 <= i < |c| && c[i].0 == g) || (i == -1 && forall j :: 0 <= j < |c| ==> c[j].0 != g)
    ensures Find(c, g) == i
  {
  }

  lemma {:induction false} SumUpdate(c: Counts, i: nat, x: (Genre, nat))
    requires i < |c|
    ensures Sum(c[i := x]) + c[i].1 == Sum(c) + x.1
  {
    if i > 0 {
      assert c[i := x][1..] == c[1..][i - 1 := x];
      SumUpdate(c[1..], i - 1, x);
    }
  }

  lemma {:induction false} SumAppend(a: Counts, b: Counts)
    ensures Sum(a + b) == Sum(a) + Sum(b)
  {
    if a == [] {
      assert a + b == b;
    } else {
      assert (a + b)[0] == a[0];
      assert (a + b)[1..] == a[1..] + b;
      SumAppend(a[1..], b);
    }
  }

  lemma BumpSum(c: Counts, g: Genre)
    ensures Sum(Bump(c, g)) == Sum(c) + 1
  {
    var i := Find(c, g);
    if i < 0 {
      SumAppend(c, [(g, 1)]);
    } else {
      SumUpdate(c, i, (g, c[i].1 + 1));
    }
  }

  lemma BumpPositive(c: Counts, g: Genre)
    requires forall j :: 0 <= j < |c| ==> c[j].1 >= 1
    ensures forall j :: 0 <= j < |Bump(c, g)| ==> Bump(c, g)[j].1 >= 1
  {
  }

  /** The tally is a correct count: distinct keys, each label's count is its number of
      occurrences, the keys are exactly the labels seen, every count is positive and the
      counts add up to the number of labels. */
  lemma {:induction false} TallyProps(ls: seq<Genre>)
    ensures DistinctKeys(Tally(ls))
    ensures forall g :: Lookup(Tally(ls), g) == multiset(ls)[g]
    ensures forall g :: Counted(Tally(ls), g) <==> g in ls
    ensures Sum(Tally(ls)) == |ls|
    ensures |Tally(ls)| <= |ls|
    ensures forall i :: 0 <= i < |Tally(ls)| ==> Tally(ls)[i].1 >= 1
  {
    if ls != [] {
      var init := ls[..|ls| - 1];
      var g := ls[|ls| - 1];
      TallyProps(init);
      var c := Tally(init);
      assert Tally(ls) == Bump(c, g);
      BumpKeys(c, g);
      BumpSum(c, g);
      BumpPositive(c, g);
      assert ls == init + [g];
      assert multiset(ls) == multiset(init) + multiset{g};
      forall h
        ensures Lookup(Bump(c, g), h) == multiset(ls)[h]
      {
        BumpLookup(c, g, h);
      }
      assert forall h :: h in ls <==> h in init || h == g;
    }
  }

  /** The part of `TallyProps` about the keys. */
  lemma TallyKeys(ls: seq<Genre>)
    ensures DistinctKeys(Tally(ls))
    ensures forall g :: Counted(Tally(ls), g) <==> g in ls
  {
    TallyProps(ls);
  }

  /** `g` occurs in `ls` before the first occurrence of `h`. */
  predicate SeenBefore(ls: seq<Genre>, g: Genre, h: Genre)
  {
    exists k :: 0 <= k < |ls| && ls[k] == g && h !in ls[..k]
  }

  /** A bump keeps the position of every key already counted, and appends a new one. */
  lemma BumpFind(c: Counts, g: Genre, h: Genre)
    requires DistinctKeys(c)
    ensures Counted(c, h) ==> Find(Bump(c, g), h) == Find(c, h)
    ensures !Counted(c, g) ==> Find(Bump(c, g), g) == |c|
  {
    var r := Bump(c, g);
    BumpKeys(c, g);
    if Counted(c, h) {
      assert r[Find(c, h)].0 == h;
      FindUnique(r, h, Find(c, h));
    }
    if !Counted(c, g) {
      FindUnique(r, g, |c|);
    }
  }

  /** The tally lists the genres in order of first appearance. */
  lemma {:induction false} TallyOrder(ls: seq<Genre>, g: Genre, h: Genre)
    requires 0 <= Find(Tally(ls), g) < Find(Tally(ls), h)
    ensures SeenBefore(ls, g, h)
    decreases |ls|
  {
    var init := ls[..|ls| - 1];
    var x := ls[|ls| - 1];
    var c := Tally(init);
    assert Tally(ls) == Bump(c, x);
    TallyKeys(init);
    BumpKeys(c, x);
    BumpFind(c, x, g);
    BumpFind(c, x, h);
    if Counted(c, g) && Counted(c, h) {
      TallyOrder(init, g, h);
      SeenBeforeGrow(ls, g, h);
    } else {
      SeenBeforeNew(ls, g, h);
    }
  }

  lemma SeenBeforeGrow(ls: seq<Genre>, g: Genre, h: Genre)
    requires ls != [] && SeenBefore(ls[..|ls| - 1], g, h)
    ensures SeenBefore(ls, g, h)
  {
    var init := ls[..|ls| - 1];
    var k :| 0 <= k < |init| && init[k] == g && h !in init[..k];
    assert ls[k] == g && ls[..k] == init[..k];
  }

  /** A genre seen before the first occurrence of `h`, which is the last label. */
  lemma SeenBeforeNew(ls: seq<Genre>, g: Genre, h: Genre)
    requires ls != [] && g in ls[..|ls| - 1] && h !in ls[..|ls| - 1]
    ensures SeenBefore(ls, g, h)
  {
    var init := ls[..|ls| - 1];
    var k :| 0 <= k < |init| && init[k] == g;
    assert ls[k] == g && ls[..k] == init[..k];
    assert h !in init[..k];
  }

  /** With distinct keys, an entry's count is what `get` reads for its key. */
  lemma LookupEntry(c: Counts, i: nat)
    requires DistinctKeys(c) && i < |c|
    ensures Lookup(c, c[i].0) == c[i].1
  {
    FindUnique(c, c[i].0, i);
  }

  // ------------------------------------------------------------------
  // The ranking (`sort((a, b) => b.count - a.count)`, which is stable)
  // ------------------------------------------------------------------

  /** Inserts `x` after every entry of the ranked `t` whose count is at least its own. */
  function InsertByCount(t: Counts, x: (Genre, nat)): (r: Counts)
    ensures |r| == |t| + 1
    decreases |t|
  {
    if t == [] || t[|t| - 1].1 >= x.1 then t + [x]
    else InsertByCount(t[..|t| - 1], x) + [t[|t| - 1]]
  }

  /** The tally ranked by count, largest first, ties in insertion order. */
  function Rank(c: Counts): (r: Counts)
    ensures |r| == |c|
    decreases |c|
  {
    if c == [] then [] else InsertByCount(Rank(c[..|c| - 1]), c[|c| - 1])
  }

  predicate ByCount(s: Counts)
  {
    forall i, j :: 0 <= i < j < |s| ==> s[i].1 >= s[j].1
  }

  /** One insertion step adds exactly `x` to the entries. */
  lemma {:induction false} InsertByCountPermutes(t: Counts, x: (Genre, nat))
    ensures multiset(InsertByCount(t, x)) == multiset(t) + multiset{x}
    decreases |t|
  {
    if t != [] && t[|t| - 1].1 < x.1 {
      var init := t[..|t| - 1];
      InsertByCountPermutes(init, x);
      assert t == init + [t[|t| - 1]];
    }
  }

  /** One insertion step keeps a list sorted by count. */
  lemma {:induction false} InsertByCountSorted(t: Counts, x: (Genre, nat))
    requires ByCount(t)
    ensures ByCount(InsertByCount(t, x))
    decreases |t|
  {
    if t != [] && t[|t| - 1].1 < x.1 {
      var init := t[..|t| - 1];
      var last := t[|t| - 1];
      assert ByCount(init);
      InsertByCountSorted(init, x);
      forall e | e in init
        ensures e.1 >= last.1
      {
        var i :| 0 <= i < |init| && init[i] == e;
        assert t[i] == e;
      }
      InsertByCountAbove(init, x, last.1);
      assert InsertByCount(t, x) == InsertByCount(init, x) + [last];
    }
  }

  /** Inserting into entries all counting at least `b` an entry counting at least `b` gives
      entries all counting at least `b`. */
  lemma InsertByCountAbove(t: Counts, x: (Genre, nat), b: nat)
    requires forall e :: e in t ==> e.1 >= b
    requires x.1 >= b
    ensures forall k :: 0 <= k < |InsertByCount(t, x)| ==> InsertByCount(t, x)[k].1 >= b
  {
    var r := InsertByCount(t, x);
    InsertByCountPermutes(t, x);
    forall k | 0 <= k < |r|
      ensures r[k].1 >= b
    {
      assert r[k] in multiset(t) + multiset{x};
      if r[k] != x {
        assert r[k] in t;
      }
    }
  }

  /** One insertion step adds `x`'s count to the total. */
  lemma {:induction false} InsertByCountSum(t: Counts, x: (Genre, nat))
    ensures Sum(InsertByCount(t, x)) == Sum(t) + x.1
    decreases |t|
  {
    if t == [] || t[|t| - 1].1 >= x.1 {
      SumAppend(t, [x]);
    } else {
      var init := t[..|t| - 1];
      var last := t[|t| - 1];
      InsertByCountSum(init, x);
      assert t == init + [last];
      SumAppend(init, [last]);
      SumAppend(InsertByCount(init, x), [last]);
    }
  }

  /** The ranking is a permutation of the tally. */
  lemma {:induction false} RankPermutes(c: Counts)
    ensures multiset(Rank(c)) == multiset(c)
  {
    if c != [] {
      var init := c[..|c| - 1];
      RankPermutes(init);
      InsertByCountPermutes(Rank(init), c[|c| - 1]);
      assert c == init + [c[|c| - 1]];
    }
  }

  /** The ranking is sorted by count, largest first. */
  lemma {:induction false} RankSorted(c: Counts)
    ensures ByCount(Rank(c))
  {
    if c != [] {
      RankSorted(c[..|c| - 1]);
      InsertByCountSorted(Rank(c[..|c| - 1]), c[|c| - 1]);
    }
  }

  /** The ranking keeps the total count. */
  lemma {:induction false} RankSum(c: Counts)
    ensures Sum(Rank(c)) == Sum(c)
    decreases |c|
  {
    if c != [] {
      var init := c[..|c| - 1];
      RankSum(init);
      InsertByCountSum(Rank(init), c[|c| - 1]);
      assert c == init + [c[|c| - 1]];
      SumAppend(init, [c[|c| - 1]]);
    }
  }

  /** The entries of `s` with count `n`, in order. */
  function WithCount(s: Counts, n: nat): Counts
  {
    if s == [] then []
    else WithCount(s[..|s| - 1], n) + (if s[|s| - 1].1 == n then [s[|s| - 1]] else [])
  }

  lemma {:induction false} InsertWithCount(t: Counts, x: (Genre, nat), n: nat)
    ensures WithCount(InsertByCount(t, x), n) == WithCount(t, n) + (if x.1 == n then [x] else [])
  {
    if t == [] || t[|t| - 1].1 >= x.1 {
      assert (t + [x])[..|t|] == t;
    } else {
      var u := t[..|t| - 1];
      var last := t[|t| - 1];
      InsertWithCount(u, x, n);
      assert (InsertByCount(u, x) + [last])[..|InsertByCount(u, x)|] == InsertByCount(u, x);
    }
  }

  /** The ranking is stable: the entries of each count keep their tally order. */
  lemma {:induction false} RankStable(c: Counts, n: nat)
    ensures WithCount(Rank(c), n) == WithCount(c, n)
  {
    if c != [] {
      RankStable(c[..|c| - 1], n);
      InsertWithCount(Rank(c[..|c| - 1]), c[|c| - 1], n);
    }
  }

  /** `x` occurs in `s` at an earlier position than `y`. */
  predicate Before(s: Counts, x: (Genre, nat), y: (Genre, nat))
  {
    exists p, q :: 0 <= p < q < |s| && s[p] == x && s[q] == y
  }

  lemma BeforeSnoc(u: Counts, z: (Genre, nat), x: (Genre, nat), y: (Genre, nat))
    ensures Before(u + [z], x, y) <==> Before(u, x, y) || (z == y && x in u)
  {
    var s := u + [z];
    if Before(s, x, y) {
      var p, q :| 0 <= p < q < |s| && s[p] == x && s[q] == y;
      assert s[p] == u[p];
      if q < |u| {
        assert s[q] == u[q];
      }
    }
    if Before(u, x, y) {
      var p, q :| 0 <= p < q < |u| && u[p] == x && u[q] == y;
      assert s[p] == x && s[q] == y;
    }
    if z == y && x in u {
      var p :| 0 <= p < |u| && u[p] == x;
      assert s[p] == x && s[|u|] == y;
    }
  }

  lemma {:induction false} WithCountMembers(s: Counts, n: nat, x: (Genre, nat))
    requires x.1 == n
    ensures x in WithCount(s, n) <==> x in s
  {
    if s != [] {
      WithCountMembers(s[..|s| - 1], n, x);
      assert s == s[..|s| - 1] + [s[|s| - 1]];
    }
  }

  /** Keeping one count keeps the relative order of the entries with that count. */
  lemma {:induction false} WithCountBefore(s: Counts, n: nat, x: (Genre, nat), y: (Genre, nat))
    requires x.1 == n && y.1 == n
    ensures Before(WithCount(s, n), x, y) <==> Before(s, x, y)
  {
    if s != [] {
      var u := s[..|s| - 1];
      var z := s[|s| - 1];
      assert s == u + [z];
      WithCountBefore(u, n, x, y);
      WithCountMembers(u, n, x);
      BeforeSnoc(u, z, x, y);
      if z.1 == n {
        assert WithCount(s, n) == WithCount(u, n) + [z];
        BeforeSnoc(WithCount(u, n), z, x, y);
      } else {
        assert WithCount(s, n) == WithCount(u, n) && z != y;
      }
    }
  }

  /** Two entries with the same count are ranked in their tally order. */
  lemma RankTies(c: Counts, i: nat, j: nat)
    requires i < j < |c| && c[i].1 == c[j].1
    ensures Before(Rank(c), c[i], c[j])
  {
    assert Before(c, c[i], c[j]);
    WithCountBefore(c, c[i].1, c[i], c[j]);
    RankStable(c, c[i].1);
    WithCountBefore(Rank(c), c[i].1, c[i], c[j]);
  }

  lemma RankProps(c: Counts)
    ensures multiset(Rank(c)) == multiset(c)
    ensures ByCount(Rank(c))
    ensures Sum(Rank(c)) == Sum(c)
  {
    RankPermutes(c);
    RankSorted(c);
    RankSum(c);
  }

  /** The position of the first entry with the largest count. */
  function FirstMax(c: Counts): (k: nat)
    requires c != []
    ensures k < |c|
  {
    if |c| == 1 then 0
    else
      var k := FirstMax(c[..|c| - 1]);
      if c[|c| - 1].1 > c[k].1 then |c| - 1 else k
  }

  lemma {:induction false} FirstMaxIsMax(c: Counts)
    requires c != []
    ensures forall j :: 0 <= j < |c| ==> c[j].1 <= c[FirstMax(c)].1
    ensures forall j :: 0 <= j < FirstMax(c) ==> c[j].1 < c[FirstMax(c)].1
  {
    if |c| > 1 {
      var init := c[..|c| - 1];
      FirstMaxIsMax(init);
      assert forall j :: 0 <= j < |init| ==> init[j] == c[j];
    }
  }

  /** Where an insertion puts its entry relative to the current first one. */
  lemma {:induction false} InsertByCountFirst(t: Counts, x: (Genre, nat))
    requires ByCount(t)
    ensures InsertByCount(t, x)[0] == (if t == [] || x.1 > t[0].1 then x else t[0])
  {
    if t != [] && t[|t| - 1].1 < x.1 {
      var init := t[..|t| - 1];
      if init != [] {
        InsertByCountFirst(init, x);
        assert init[0] == t[0];
      }
    }
  }

  /** Ties are broken by tally order: the top of the ranking is the first entry, in
      insertion order, with the largest count. */
  lemma {:induction false} RankFirst(c: Counts)
    requires c != []
    ensures Rank(c)[0] == c[FirstMax(c)]
  {
    var init := c[..|c| - 1];
    if init != [] {
      RankFirst(init);
      RankProps(init);
      FirstMaxIsMax(init);
      InsertByCountFirst(Rank(init), c[|c| - 1]);
      assert init[FirstMax(init)] == c[FirstMax(init)];
    }
  }

  // ------------------------------------------------------------------
  // The rules
  // ------------------------------------------------------------------

  /** Every drama's top genres, in drama order. */
  function AllLabels(dramas: seq<EnrichedDrama>): seq<Genre>
  {
    if dramas == [] then [] else AllLabels(dramas[..|dramas| - 1]) + TopGenres(dramas[|dramas| - 1])
  }

  /** The keys of the first three ranked entries (`slice(0, 3)`). */
  function Top3(stats: Counts): seq<Genre>
  {
    Keys(if |stats| <= 3 then stats else stats[..3])
  }

  /** The summed counts of a group of genres (`reduce` over `get(g) || 0`). */
  function GroupCount(c: Counts, group: seq<Genre>): nat
  {
    if group == [] then 0 else Lookup(c, group[0]) + GroupCount(c, group[1..])
  }

  const HealingGenres: seq<Genre> := [SliceOfLife, Medical, Youth, Comedy]
  const DetectiveGenres: seq<Genre> := [Thriller, Legal, Action, SciFi]

  function TitleOf(d: EnrichedDrama): string
  {
    if d.title.Some? then d.title.value else ""
  }

  /** `dramas.slice(0, 3)`: the first three dramas count as the favourites. */
  function Favorites(dramas: seq<EnrichedDrama>): seq<EnrichedDrama>
  {
    if |dramas| <= 3 then dramas else dramas[..3]
  }

  /** A favourite's title contains one of the healing titles (case-sensitive). */
  predicate HealingFavorite(dramas: seq<EnrichedDrama>)
  {
    exists i :: 0 <= i < |Favorites(dramas)| &&
      (Includes(TitleOf(Favorites(dramas)[i]), "When Life Gives You Tangerines")
        || Includes(TitleOf(Favorites(dramas)[i]), "Our Unwritten Seoul"))
  }

  /** A favourite's lower-cased title contains one of the detective titles, lower-cased. */
  predicate DetectiveFavorite(dramas: seq<EnrichedDrama>)
  {
    exists i :: 0 <= i < |Favorites(dramas)| &&
      (Includes(Lower(TitleOf(Favorites(dramas)[i])), "trigger")
        || Includes(Lower(TitleOf(Favorites(dramas)[i])), "mercy for none")
        || Includes(Lower(TitleOf(Favorites(dramas)[i])), "as you stood by"))
  }

  /** The rule cascade on a non-empty tally of `total` labels. A share `count / total * 100`
      compared with `p` is compared here as `100 * count` against `p * total`. The last rule
      returns "romantic" whether or not its condition holds. */
  function Decide(c: Counts, total: nat, healingFavorite: bool, detectiveFavorite: bool): VibeType
    requires c != []
  {
    var stats := Rank(c);
    var top := stats[0];
    var top3 := Top3(stats);
    if |stats| >= 6 && 100 * top.1 < 35 * total then Wanderer
    else if top.0 == Historical || Historical in top3 || 100 * Lookup(c, Historical) > 35 * total then TimeTraveler
    else if 100 * GroupCount(c, HealingGenres) > (if healingFavorite then 10 else 25) * total
      || SliceOfLife in top3 || Medical in top3 then Healing
    else if 100 * GroupCount(c, DetectiveGenres) > (if detectiveFavorite then 10 else 30) * total
      || Thriller in top3 || Legal in top3 then Detective
    else Romantic
  }

  /** `calculateVibe`: with no dramas the top genre is undefined and reading it throws. */
  function Vibe(dramas: seq<EnrichedDrama>): Result<VibeType, string>
  {
    var labels := AllLabels(dramas);
    var c := Tally(labels);
    if c == [] then Err("topGenre is undefined")
    else Ok(Decide(c, |labels|, HealingFavorite(dramas), DetectiveFavorite(dramas)))
  }

  // ------------------------------------------------------------------
  // `calculateVibe` as the source runs it
  // ------------------------------------------------------------------

  /** The inner loop: one drama's genres bump their counts and the total. */
  method CountLabels(counts: Counts, total: nat, genres: seq<Genre>, ghost seen: seq<Genre>)
    returns (counts': Counts, total': nat)
    requires counts == Tally(seen) && total == |seen|
    ensures counts' == Tally(seen + genres) && total' == |seen + genres|
  {
    counts', total' := counts, total;
    assert seen + genres[..0] == seen;
    for j := 0 to |genres|
      invariant counts' == Tally(seen + genres[..j])
      invariant total' == |seen| + j
    {
      assert (seen + genres[..j + 1])[..|seen| + j] == seen + genres[..j];
      counts' := Bump(counts', genres[j]);
      total' := total' + 1;
    }
    assert genres[..|genres|] == genres;
  }

  /** The counting loop: every genre of every drama bumps its count and the total. */
  method CountGenres(dramas: seq<EnrichedDrama>) returns (counts: Counts, total: nat)
    ensures counts == Tally(AllLabels(dramas))
    ensures total == |AllLabels(dramas)|
  {
    counts := [];
    total := 0;
    for i := 0 to |dramas|
      invariant counts == Tally(AllLabels(dramas[..i]))
      invariant total == |AllLabels(dramas[..i])|
    {
      var genres := GetTopGenres(dramas[i]);
      counts, total := CountLabels(counts, total, genres, AllLabels(dramas[..i]));
      assert dramas[..i + 1][..i] == dramas[..i];
    }
    assert dramas[..|dramas|] == dramas;
  }

  /** `calculateVibe`: the counting loop, then the rules on the tally. */
  method CalculateVibe(dramas: seq<EnrichedDrama>) returns (r: Result<VibeType, string>)
    ensures r == Vibe(dramas)
  {
    var genreCounts, totalGenres := CountGenres(dramas);
    if genreCounts == [] {
      return Err("topGenre is undefined");
    }
    var healingFavorite := HealingFavorite(dramas);
    var detectiveFavorite := DetectiveFavorite(dramas);
    r := Ok(Decide(genreCounts, totalGenres, healingFavorite, detectiveFavorite));
  }

  // ------------------------------------------------------------------
  // Properties
  // ------------------------------------------------------------------

  /** Every drama adds one or two labels. */
  lemma {:induction false} AllLabelsBounds(dramas: seq<EnrichedDrama>)
    ensures |dramas| <= |AllLabels(dramas)| <= 2 * |dramas|
  {
    if dramas != [] {
      AllLabelsBounds(dramas[..|dramas| - 1]);
      TopGenresShape(dramas[|dramas| - 1]);
    }
  }

  /** The vibe is undefined exactly when there are no dramas. */
  lemma VibeErrIffEmpty(dramas: seq<EnrichedDrama>)
    ensures Vibe(dramas).Err? <==> dramas == []
  {
    var labels := AllLabels(dramas);
    AllLabelsBounds(dramas);
    TallyProps(labels);
    if labels != [] {
      assert labels[0] in labels;
    }
  }

  /** The share clause of the time rule never decides: a genre above 35% of the labels is
      always among the three best-ranked, since three genres ranked above it would make at
      least four times its count. */
  lemma {:induction false} HistoricalShareImpliesTop3(c: Counts)
    requires DistinctKeys(c)
    requires 100 * Lookup(c, Historical) > 35 * Sum(c)
    ensures Historical in Top3(Rank(c))
  {
    var stats := Rank(c);
    RankProps(c);
    var n := Lookup(c, Historical);
    var k := Find(c, Historical);
    assert k >= 0;
    LookupEntry(c, k);
    assert c[k] in multiset(stats);
    var p :| 0 <= p < |stats| && stats[p] == c[k];
    if p >= 3 {
      SumAtLeastFour(stats, p);
      assert false;
    }
    assert Top3(stats)[p] == Historical;
  }

  /** In a ranking, the three first entries and any later one weigh at least four times the
      later one. */
  lemma SumAtLeastFour(s: Counts, p: nat)
    requires ByCount(s) && 3 <= p < |s|
    ensures Sum(s) >= 4 * s[p].1
  {
    assert Sum(s) == s[0].1 + Sum(s[1..]);
    assert Sum(s[1..]) == s[1].1 + Sum(s[1..][1..]);
    assert Sum(s[1..][1..]) == s[2].1 + Sum(s[1..][1..][1..]);
    assert s[1..][1..][1..] == s[3..];
    SumAtLeast(s[3..], p - 3);
    assert s[3..][p - 3] == s[p];
    assert s[0].1 >= s[p].1 && s[1].1 >= s[p].1 && s[2].1 >= s[p].1;
  }

  lemma {:induction false} SumAtLeast(s: Counts, p: nat)
    requires p < |s|
    ensures Sum(s) >= s[p].1
  {
    if p > 0 {
      SumAtLeast(s[1..], p - 1);
    }
  }

  /** So on any input the time rule decides exactly as it would without its share clause. */
  lemma TimeRuleByRank(dramas: seq<EnrichedDrama>)
    ensures var c := Tally(AllLabels(dramas));
      c != [] ==>
        (100 * Lookup(c, Historical) > 35 * |AllLabels(dramas)| ==> Historical in Top3(Rank(c)))
  {
    var labels := AllLabels(dramas);
    TallyProps(labels);
    if Tally(labels) != [] && 100 * Lookup(Tally(labels), Historical) > 35 * |labels| {
      HistoricalShareImpliesTop3(Tally(labels));
    }
  }

  /** A wanderer needs six distinct genres, so at least three dramas. */
  lemma WandererNeedsThreeDramas(dramas: seq<EnrichedDrama>)
    requires Vibe(dramas) == Ok(Wanderer)
    ensures |dramas| >= 3
  {
    var labels := AllLabels(dramas);
    var c := Tally(labels);
    WandererNeedsSixGenres(c, |labels|, HealingFavorite(dramas), DetectiveFavorite(dramas));
    AllLabelsBounds(dramas);
    TallyProps(labels);
  }

  /** Healing is tested before detective: a Medical and a Thriller label, one each, give
      "healing" although Thriller is in the top three. */
  lemma HealingBeforeDetective()
    ensures Decide([(Medical, 1), (Thriller, 1)], 2, false, false) == Healing
  {
  }

  /** The last rule returns "romantic" whatever the romantic share: a tally of Fantasy labels
      only, with no Romance, Comedy or Melodrama at all, gives "romantic". */
  lemma RomanticWithoutRomance(c: Counts, total: nat)
    requires total >= 1 && c == [(Fantasy, total)]
    ensures Decide(c, total, false, false) == Romantic
  {
    assert c[..0] == [];
    assert Rank(c) == c;
    assert Top3(c) == [Fantasy];
    assert Lookup(c, Historical) == 0;
    GroupCountAbsent(c, HealingGenres);
    GroupCountAbsent(c, DetectiveGenres);
  }

  /** A group none of whose genres is counted sums to nothing. */
  lemma {:induction false} GroupCountAbsent(c: Counts, group: seq<Genre>)
    requires forall i, j :: 0 <= i < |group| && 0 <= j < |c| ==> c[j].0 != group[i]
    ensures GroupCount(c, group) == 0
  {
    if group != [] {
      assert forall i :: 0 <= i < |group[1..]| ==> group[1..][i] == group[i + 1];
      GroupCountAbsent(c, group[1..]);
    }
  }

  lemma WandererNeedsSixGenres(c: Counts, total: nat, healingFavorite: bool, detectiveFavorite: bool)
    requires c != [] && Decide(c, total, healingFavorite, detectiveFavorite) == Wanderer
    ensures |c| >= 6
  {
  }
}
