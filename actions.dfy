/** Title resolution (`identifyDramas`): the season number is cut out of each title, the query
    is searched, the candidates are sorted newest first, and the newest candidate decides
    between a found title, a suggestion and nothing. Also the enriched-drama record the later
    stages read. */
module Actions {
  import opened Text
  import opened Wrappers
  import opened Tmdb

  /** A drama after enrichment. Every field may be absent; counts are non-negative. */
  datatype EnrichedDrama = EnrichedDrama(
    title: Option<string>,
    genres: Option<seq<string>>,
    keywords: Option<seq<string>>,
    episodeCount: Option<nat>,
    totalRuntime: Option<nat>)

  // ------------------------------------------------------------------
  // The season pattern `/(?:season|s)\s*(\d+)/i`
  // ------------------------------------------------------------------

  /** `s` or `S`. */
  predicate IsLetterS(c: char)
  {
    c == 's' || c == 'S'
  }

  /** The word "season" at `i`, in any ASCII case. */
  predicate SeasonWordAt(s: string, i: nat)
  {
    i + 6 <= |s| && IsLetterS(s[i]) && LowerChar(s[i + 1]) == 'e' && LowerChar(s[i + 2]) == 'a'
    && LowerChar(s[i + 3]) == 's' && LowerChar(s[i + 4]) == 'o' && LowerChar(s[i + 5]) == 'n'
  }

  /** The number of characters from `j` on that satisfy `IsSpace`. */
  function SpacesFrom(s: string, j: nat): (n: nat)
    requires j <= |s|
    ensures j + n <= |s|
    ensures forall k :: j <= k < j + n ==> IsSpace(s[k])
    ensures j + n == |s| || !IsSpace(s[j + n])
    decreases |s| - j
  {
    if j < |s| && IsSpace(s[j]) then 1 + SpacesFrom(s, j + 1) else 0
  }

  /** The number of ASCII digits from `j` on. */
  function DigitsFrom(s: string, j: nat): (n: nat)
    requires j <= |s|
    ensures j + n <= |s|
    ensures forall k :: j <= k < j + n ==> IsDigit(s[k])
    ensures j + n == |s| || !IsDigit(s[j + n])
    decreases |s| - j
  {
    if j < |s| && IsDigit(s[j]) then 1 + DigitsFrom(s, j + 1) else 0
  }

  /** A match: it covers `s[start..end]`, and its digits are `s[digits..end]`. */
  datatype SeasonMatch = SeasonMatch(start: nat, digits: nat, end: nat)

  /** The digits of a match, with nothing but whitespace between them and `j`, and no digit
      right after them. */
  predicate TailShape(s: string, j: nat, m: SeasonMatch)
  {
    j <= m.digits < m.end <= |s|
    && (forall k :: j <= k < m.digits ==> IsSpace(s[k]))
    && (forall k :: m.digits <= k < m.end ==> IsDigit(s[k]))
    && (m.end == |s| || !IsDigit(s[m.end]))
  }

  /** `\s*(\d+)` from `j`: the greedy spaces, then at least one digit. */
  function MatchTail(s: string, start: nat, j: nat): (r: Option<SeasonMatch>)
    requires start <= j <= |s|
    ensures r.Some? ==> r.value.start == start && TailShape(s, j, r.value)
    ensures r.None? <==> j + SpacesFrom(s, j) == |s| || !IsDigit(s[j + SpacesFrom(s, j)])
  {
    var d := j + SpacesFrom(s, j);
    var n := DigitsFrom(s, d);
    if n == 0 then None else Some(SeasonMatch(start, d, d + n))
  }

  /** The pattern tried at `i`: the alternative "season" first, then "s". */
  function SeasonMatchAt(s: string, i: nat): (r: Option<SeasonMatch>)
    requires i <= |s|
    ensures r.Some? ==> r.value.start == i && i < |s| && IsLetterS(s[i])
    ensures r.Some? ==> TailShape(s, i + 1, r.value) || (SeasonWordAt(s, i) && TailShape(s, i + 6, r.value))
    // Conversely, "s" or "season" followed by `\s*\d` does match.
    ensures i < |s| && IsLetterS(s[i]) ==>
      (r.None? <==> MatchTail(s, i, i + 1).None? && (!SeasonWordAt(s, i) || MatchTail(s, i, i + 6).None?))
    ensures i == |s| || !IsLetterS(s[i]) ==> r.None?
  {
    var long := if SeasonWordAt(s, i) then MatchTail(s, i, i + 6) else None;
    if long.Some? then long
    else if i < |s| && IsLetterS(s[i]) then MatchTail(s, i, i + 1)
    else None
  }

  /** The leftmost match starting at `i` or later. */
  function FindSeason(s: string, i: nat): (r: Option<SeasonMatch>)
    requires i <= |s|
    ensures r.Some? ==> i <= r.value.start < |s| && SeasonMatchAt(s, r.value.start) == r
    ensures r.Some? ==> forall j :: i <= j < r.value.start ==> SeasonMatchAt(s, j).None?
    ensures r.None? ==> forall j :: i <= j <= |s| ==> SeasonMatchAt(s, j).None?
    decreases |s| - i
  {
    if i == |s| then None
    else if SeasonMatchAt(s, i).Some? then SeasonMatchAt(s, i)
    else FindSeason(s, i + 1)
  }

  /** The search query and the target season of a title: with a match, the title without the
      matched text, trimmed, and the digits' value; without one, the title as it is. */
  function ExtractSeason(title: string): (r: (string, Option<nat>))
  {
    match FindSeason(title, 0)
    case None => (title, None)
    case Some(m) => (Trim(title[..m.start] + title[m.end..]), Some(DigitsValue(title[m.digits..m.end])))
  }

  /** A title with no season-like text is searched unchanged, untrimmed. */
  lemma ExtractSeasonNoMatch(title: string)
    requires forall j :: 0 <= j <= |title| ==> SeasonMatchAt(title, j).None?
    ensures ExtractSeason(title) == (title, None)
  {
  }

  /** No match can start at a letter other than `s`. */
  lemma NoMatchWithoutS(s: string, i: nat)
    requires i < |s| && !IsLetterS(s[i])
    ensures SeasonMatchAt(s, i).None?
  {
  }

  /** The search skips a stretch without the letter `s`. */
  lemma {:induction false} FindSeasonSkips(s: string, i: nat, k: nat)
    requires i <= k <= |s| && 's' !in s[i..k] && 'S' !in s[i..k]
    ensures FindSeason(s, i) == FindSeason(s, k)
    decreases k - i
  {
    if i < k {
      assert s[i] == s[i..k][0];
      NoMatchWithoutS(s, i);
      assert s[i + 1..k] == s[i..k][1..];
      FindSeasonSkips(s, i + 1, k);
    }
  }

  // The example below names its title through a parameter fixed by `requires`, so that the
  // verifier reasons about it one step at a time instead of evaluating the whole search.

  lemma StrangerThingsFirstS(t: string)
    requires t == "Stranger Things 2"
    ensures SeasonMatchAt(t, 0).None?
    ensures 's' !in t[1..14] && 'S' !in t[1..14]
  {
    assert t[1] == 't';
    assert t[1..14] == "tranger Thing";
  }

  lemma StrangerThingsLastS(t: string)
    requires t == "Stranger Things 2"
    ensures SeasonMatchAt(t, 14) == Some(SeasonMatch(14, 16, 17))
  {
    assert t[15] == ' ' && t[16] == '2';
    assert SpacesFrom(t, 15) == 1;
    assert DigitsFrom(t, 16) == 1;
  }

  /** The leftmost match in "Stranger Things 2" is the "s 2" at the end of "Things". */
  lemma StrangerThingsMatch(t: string)
    requires t == "Stranger Things 2"
    ensures FindSeason(t, 0) == Some(SeasonMatch(14, 16, 17))
  {
    StrangerThingsFirstS(t);
    FindSeasonSkips(t, 1, 14);
    StrangerThingsLastS(t);
  }

  /** The bare `s` alternative matches inside a word: "Stranger Things 2" is searched as
      "Stranger Thing", season 2. */
  lemma StrangerThingsExample(t: string)
    requires t == "Stranger Things 2"
    ensures ExtractSeason(t) == ("Stranger Thing", Some(2))
  {
    StrangerThingsMatch(t);
    var q := t[..14] + t[17..];
    assert q == "Stranger Thing";
    TrimOfSpaceFree(q);
    var d := t[16..17];
    assert d == "2" && d[..0] == [];
    assert DigitsValue(d) == 2;
  }

  // ------------------------------------------------------------------
  // Sorting the candidates newest first
  // ------------------------------------------------------------------

  /** The sort key: the air date, "0000" when it is missing. */
  function DateKey(s: Series): string
  {
    if s.firstAirDate == [] then "0000" else s.firstAirDate
  }

  /** `a` sorts strictly before `b`: its date is later. */
  predicate Newer(a: Series, b: Series)
  {
    LexLess(DateKey(b), DateKey(a))
  }

  predicate NewestFirst(t: seq<Series>)
  {
    forall i, j :: 0 <= i < j < |t| ==> !Newer(t[j], t[i])
  }

  /** One step of a stable insertion sort under the comparator `newer`: `x` goes after every
      element it does not sort strictly before. */
  function Insert(t: seq<Series>, x: Series, newer: (Series, Series) -> bool): (r: seq<Series>)
    ensures |r| == |t| + 1
  {
    if t == [] || !newer(x, t[|t| - 1]) then t + [x]
    else Insert(t[..|t| - 1], x, newer) + [t[|t| - 1]]
  }

  /** The stable sort by date, newest first (the comparator `dateB.localeCompare(dateA)`). */
  function SortByDate(s: seq<Series>): (r: seq<Series>)
    ensures |r| == |s|
  {
    if s == [] then [] else Insert(SortByDate(s[..|s| - 1]), s[|s| - 1], Newer)
  }

  lemma {:induction false} InsertPermutes(t: seq<Series>, x: Series)
    ensures multiset(Insert(t, x, Newer)) == multiset(t) + multiset{x}
  {
    if t != [] && Newer(x, t[|t| - 1]) {
      InsertPermutes(t[..|t| - 1], x);
      assert t == t[..|t| - 1] + [t[|t| - 1]];
    }
  }

  lemma {:induction false} InsertSorted(t: seq<Series>, x: Series)
    requires NewestFirst(t)
    ensures NewestFirst(Insert(t, x, Newer))
  {
    if t == [] {
    } else if !Newer(x, t[|t| - 1]) {
      forall i | 0 <= i < |t|
        ensures !Newer(x, t[i])
      {
        if i < |t| - 1 {
          NotLexLessTransitive(DateKey(t[i]), DateKey(t[|t| - 1]), DateKey(x));
        }
      }
    } else {
      var u := t[..|t| - 1];
      var last := t[|t| - 1];
      InsertSorted(u, x);
      InsertPermutes(u, x);
      var v := Insert(u, x, Newer);
      forall i | 0 <= i < |v|
        ensures !Newer(last, v[i])
      {
        assert v[i] in multiset(v);
        if v[i] == x {
          LexLessAsymmetric(DateKey(last), DateKey(x));
        } else {
          assert v[i] in u;
        }
      }
    }
  }

  /** The sort is a permutation. */
  lemma {:induction false} SortPermutes(s: seq<Series>)
    ensures multiset(SortByDate(s)) == multiset(s)
    decreases |s|
  {
    if s != [] {
      var init := s[..|s| - 1];
      var x := s[|s| - 1];
      SortPermutes(init);
      InsertPermutes(SortByDate(init), x);
      assert SortByDate(s) == Insert(SortByDate(init), x, Newer);
      assert s == init + [x];
      assert multiset(s) == multiset(init) + multiset{x};
    }
  }

  /** The sort puts later dates first. */
  lemma {:induction false} SortSorted(s: seq<Series>)
    ensures NewestFirst(SortByDate(s))
  {
    if s != [] {
      SortSorted(s[..|s| - 1]);
      InsertSorted(SortByDate(s[..|s| - 1]), s[|s| - 1]);
    }
  }

  /** The candidates with date key `k`, in order. */
  function WithKey(s: seq<Series>, k: string): (r: seq<Series>)
  {
    if s == [] then []
    else WithKey(s[..|s| - 1], k) + (if DateKey(s[|s| - 1]) == k then [s[|s| - 1]] else [])
  }

  lemma {:induction false} InsertWithKey(t: seq<Series>, x: Series, k: string)
    ensures WithKey(Insert(t, x, Newer), k) == WithKey(t, k) + (if DateKey(x) == k then [x] else [])
  {
    if t == [] || !Newer(x, t[|t| - 1]) {
      assert (t + [x])[..|t|] == t;
    } else {
      var u := t[..|t| - 1];
      var last := t[|t| - 1];
      InsertWithKey(u, x, k);
      LexLessIrreflexive(DateKey(x));
      assert (Insert(u, x, Newer) + [last])[..|Insert(u, x, Newer)|] == Insert(u, x, Newer);
    }
  }

  /** The sort is stable: candidates with the same date keep their order. */
  lemma {:induction false} SortStable(s: seq<Series>, k: string)
    ensures WithKey(SortByDate(s), k) == WithKey(s, k)
  {
    if s != [] {
      SortStable(s[..|s| - 1], k);
      InsertWithKey(SortByDate(s[..|s| - 1]), s[|s| - 1], k);
    }
  }

  /** A plain scan for the best candidate: the first one with the latest date. */
  function NewestIndex(s: seq<Series>): (i: nat)
    requires s != []
    ensures i < |s|
  {
    if |s| == 1 then 0
    else
      var i := NewestIndex(s[..|s| - 1]);
      if Newer(s[|s| - 1], s[i]) then |s| - 1 else i
  }

  /** The scan finds a candidate no other is newer than, and every candidate before it is
      strictly older. */
  lemma {:induction false} NewestIndexIsFirstNewest(s: seq<Series>)
    requires s != []
    ensures forall j :: 0 <= j < |s| ==> !Newer(s[j], s[NewestIndex(s)])
    ensures forall j :: 0 <= j < NewestIndex(s) ==> Newer(s[NewestIndex(s)], s[j])
  {
    if |s| == 1 {
      LexLessIrreflexive(DateKey(s[0]));
    } else {
      var p := s[..|s| - 1];
      var i := NewestIndex(p);
      var x := s[|s| - 1];
      NewestIndexIsFirstNewest(p);
      assert forall j :: 0 <= j < |p| ==> p[j] == s[j];
      if Newer(x, s[i]) {
        forall j | 0 <= j < |s| - 1
          ensures Newer(x, s[j]) && !Newer(s[j], x)
        {
          LexLessTotal(DateKey(s[j]), DateKey(s[i]));
          if DateKey(s[j]) != DateKey(s[i]) {
            LexLessTransitive(DateKey(s[j]), DateKey(s[i]), DateKey(x));
          }
          LexLessAsymmetric(DateKey(s[j]), DateKey(x));
        }
        LexLessIrreflexive(DateKey(x));
      }
    }
  }

  lemma {:induction false} InsertHead(t: seq<Series>, x: Series)
    requires t != [] && NewestFirst(t)
    ensures Insert(t, x, Newer)[0] == if Newer(x, t[0]) then x else t[0]
  {
    if |t| == 1 {
    } else if !Newer(x, t[|t| - 1]) {
      if Newer(x, t[0]) {
        NotLexLessTransitive(DateKey(t[0]), DateKey(t[|t| - 1]), DateKey(x));
      }
    } else {
      var u := t[..|t| - 1];
      InsertHead(u, x);
    }
  }

  /** The best match, the head of the sorted list, is the first candidate with the latest
      date. */
  lemma {:induction false} BestIsFirstNewest(s: seq<Series>)
    requires s != []
    ensures SortByDate(s)[0] == s[NewestIndex(s)]
  {
    if |s| > 1 {
      var p := s[..|s| - 1];
      BestIsFirstNewest(p);
      SortSorted(p);
      InsertHead(SortByDate(p), s[|s| - 1]);
      assert p[NewestIndex(p)] == s[NewestIndex(p)];
    }
  }

  /** `searchResults.sort(...)` on the array in place (an insertion sort: any stable sort
      gives the same order). */
  method SortInPlace(a: array<Series>)
    modifies a
    ensures a[..] == SortByDate(old(a[..]))
  {
    ghost var o := a[..];
    for i := 0 to a.Length
      invariant a[..i] == SortByDate(o[..i])
      invariant forall k :: i <= k < a.Length ==> a[k] == o[k]
    {
      InsertLast(a, i, Newer);
      assert o[..i + 1] == o[..i] + [o[i]];
    }
    assert o[..a.Length] == o;
  }

  /** Inserts `a[i]` into the sorted prefix `a[..i]`, shifting right the elements it sorts
      before under `newer`. */
  method InsertLast(a: array<Series>, i: nat, newer: (Series, Series) -> bool)
    requires i < a.Length
    modifies a
    ensures a[..i + 1] == Insert(old(a[..i]), old(a[i]), newer)
    ensures forall k :: i < k < a.Length ==> a[k] == old(a[k])
  {
    ghost var t := a[..i];
    var x := a[i];
    var j := ShiftRight(a, i, x, newer);
    a[j] := x;
    InsertAt(t, x, j, newer);
    Assemble(a[..i + 1], t, j, x);
  }

  /** The shifting loop: from the right end of `a[..i]`, every element `x` sorts before
      moves one place right; the returned index is the gap left for `x`. */
  method ShiftRight(a: array<Series>, i: nat, x: Series, newer: (Series, Series) -> bool) returns (j: nat)
    requires i < a.Length
    modifies a
    ensures j <= i && (j == 0 || !newer(x, old(a[j - 1])))
    ensures forall k :: 0 <= k < j ==> a[k] == old(a[k])
    ensures forall k :: j < k <= i ==> a[k] == old(a[k - 1])
    ensures forall k :: i < k < a.Length ==> a[k] == old(a[k])
    ensures forall k :: j <= k < i ==> newer(x, old(a[k]))
  {
    j := i;
    while j > 0 && newer(x, a[j - 1])
      invariant 0 <= j <= i
      invariant forall k :: 0 <= k < j ==> a[k] == old(a[k])
      invariant forall k :: j < k <= i ==> a[k] == old(a[k - 1])
      invariant forall k :: i < k < a.Length ==> a[k] == old(a[k])
      invariant forall k :: j <= k < i ==> newer(x, old(a[k]))
    {
      a[j] := a[j - 1];
      j := j - 1;
    }
  }

  /** `x` is inserted right after the last element that is not older than it. */
  lemma {:induction false} InsertAt(t: seq<Series>, x: Series, j: nat, newer: (Series, Series) -> bool)
    requires j <= |t|
    requires forall k :: j <= k < |t| ==> newer(x, t[k])
    requires j == 0 || !newer(x, t[j - 1])
    ensures Insert(t, x, newer) == t[..j] + [x] + t[j..]
  {
    if j < |t| {
      var u := t[..|t| - 1];
      InsertAt(u, x, j, newer);
      assert u[..j] == t[..j];
      assert u[j..] + [t[|t| - 1]] == t[j..];
    }
  }

  /** The array after the shift and the final write, as a sequence. */
  lemma Assemble(u: seq<Series>, t: seq<Series>, j: nat, x: Series)
    requires |u| == |t| + 1 && j <= |t|
    requires forall k :: 0 <= k < j ==> u[k] == t[k]
    requires u[j] == x
    requires forall k :: j < k <= |t| ==> u[k] == t[k - 1]
    ensures u == t[..j] + [x] + t[j..]
  {
  }

  // ------------------------------------------------------------------
  // Normalising titles
  // ------------------------------------------------------------------

  predicate IsLowerAlnum(c: char)
  {
    'a' <= c <= 'z' || IsDigit(c)
  }

  /** `replace(/[^a-z0-9]/g, "")`: every other character deleted. */
  function KeepLowerAlnum(s: string): (r: string)
    ensures |r| <= |s|
    ensures forall i :: 0 <= i < |r| ==> IsLowerAlnum(r[i])
  {
    if s == [] then []
    else (if IsLowerAlnum(s[0]) then [s[0]] else []) + KeepLowerAlnum(s[1..])
  }

  /** `normalize`: lower case, then only letters and digits. */
  function Normalize(s: string): (r: string)
    ensures forall i :: 0 <= i < |r| ==> IsLowerAlnum(r[i])
  {
    KeepLowerAlnum(Lower(s))
  }

  lemma {:induction false} KeepLowerAlnumOfAlnum(s: string)
    requires forall i :: 0 <= i < |s| ==> IsLowerAlnum(s[i])
    ensures KeepLowerAlnum(s) == s
  {
    if s != [] {
      KeepLowerAlnumOfAlnum(s[1..]);
    }
  }

  /** Normalising twice is normalising once. */
  lemma NormalizeIdempotent(s: string)
    ensures Normalize(Normalize(s)) == Normalize(s)
  {
    var r := Normalize(s);
    assert Lower(r) == r;
    KeepLowerAlnumOfAlnum(r);
  }

  lemma {:induction false} KeepLowerAlnumAppend(a: string, b: string)
    ensures KeepLowerAlnum(a + b) == KeepLowerAlnum(a) + KeepLowerAlnum(b)
  {
    if a == [] {
      assert a + b == b;
    } else {
      assert (a + b)[0] == a[0];
      assert (a + b)[1..] == a[1..] + b;
      KeepLowerAlnumAppend(a[1..], b);
    }
  }

  /** Normalising works piece by piece, so the comparison ignores where the spaces and the
      punctuation were. */
  lemma NormalizeAppend(a: string, b: string)
    ensures Normalize(a + b) == Normalize(a) + Normalize(b)
  {
    LowerAppend(a, b);
    KeepLowerAlnumAppend(Lower(a), Lower(b));
  }

  /** Case does not matter. */
  lemma NormalizeIgnoresCase(s: string)
    ensures Normalize(Lower(s)) == Normalize(s)
  {
    LowerIdempotent(s);
  }

  /** A character outside `[A-Za-z0-9]` disappears. */
  lemma NormalizeDropsOthers(c: char)
    requires !IsLowerAlnum(LowerChar(c))
    ensures Normalize([c]) == []
  {
  }

  // ------------------------------------------------------------------
  // Identifying one title
  // ------------------------------------------------------------------

  /** The outcome for one title: found (exact), a suggestion (the newest candidate is not an
      exact match) or nothing found. `Suggested.title` doubles as the suggestion. */
  datatype Identified =
    | Found(input: string, tmdbId: nat, title: string, posterUrl: Option<string>, year: Option<string>)
    | Suggested(input: string, tmdbId: nat, title: string, posterUrl: Option<string>, year: Option<string>)
    | NotFound(input: string)

  /** The `isUncertain` flag: false for a found title, true for a suggestion, absent else. */
  function IsUncertain(r: Identified): (u: Option<bool>)
    ensures u == Some(true) <==> r.Suggested?
  {
    match r
    case Found(_, _, _, _, _) => Some(false)
    case Suggested(_, _, _, _, _) => Some(true)
    case NotFound(_) => None
  }

  /** The `suggestion` field. */
  function Suggestion(r: Identified): (s: Option<string>)
    ensures s.Some? <==> r.Suggested?
    ensures s.Some? ==> s.value == r.title
  {
    if r.Suggested? then Some(r.title) else None
  }

  /** The year: the first four characters of a non-empty air date. */
  function Year(s: Series): (y: Option<string>)
    ensures y.None? <==> s.firstAirDate == []
    ensures y.Some? ==> |y.value| == if |s.firstAirDate| < 4 then |s.firstAirDate| else 4
    ensures y.Some? ==> StartsWith(s.firstAirDate, y.value)
  {
    if s.firstAirDate == [] then None
    else if |s.firstAirDate| < 4 then Some(s.firstAirDate)
    else Some(s.firstAirDate[..4])
  }

  /** A season lookup: `Err` when it throws, else the season record or nothing. */
  type SeasonLookup = (nat, nat) -> Result<Option<Season>, string>

  /** A search: `Err` when it throws. */
  type SearchFn = string -> Result<seq<Series>, string>

  /** The test `seasonDetails && seasonDetails.poster_path`: the lookup did not throw, returned
      a season, and that season has a non-empty poster path. */
  predicate HasSeasonPoster(lookup: Result<Option<Season>, string>)
  {
    lookup.Ok? && lookup.value.Some? && lookup.value.value.posterPath.Some?
    && lookup.value.value.posterPath.value != []
  }

  /** The poster of an exact match: the season's poster when a season was asked for and the
      lookup returned one with a non-empty path, else the series poster. */
  function FinalPoster(best: Series, target: Option<nat>, season: SeasonLookup): (p: Option<string>)
    // The override: a season asked for, found, and with a poster gives that poster's URL.
    ensures target.Some? && HasSeasonPoster(season(best.id, target.value)) ==>
      p.Some? && SplitPosterUrl(p.value) == Some((DefaultSize, season(best.id, target.value).value.value.posterPath.value))
    // Every other case (no season, the lookup threw, no season returned, a season without a
    // poster) keeps the series poster.
    ensures !(target.Some? && HasSeasonPoster(season(best.id, target.value))) ==>
      p == PosterUrl(best.posterPath, DefaultSize)
  {
    var series := PosterUrl(best.posterPath, DefaultSize);
    if target.None? then series
    else
      var lookup := season(best.id, target.value);
      if lookup.Ok? && lookup.value.Some? && PosterUrl(lookup.value.value.posterPath, DefaultSize).Some? then
        PosterUrlRoundTrip(lookup.value.value.posterPath.value, DefaultSize);
        PosterUrl(lookup.value.value.posterPath, DefaultSize)
      else series
  }

  /** What `identifyDramas` produces for one title; `Err` when the search throws. */
  function IdentifyTitle(title: string, search: SearchFn, season: SeasonLookup): (r: Result<Identified, string>)
    ensures r.Ok? ==> r.value.input == title
    ensures r.Err? <==> search(ExtractSeason(title).0).Err?
  {
    var (query, target) := ExtractSeason(title);
    var results := search(query);
    if results.Err? then Err(results.error)
    else if results.value == [] then Ok(NotFound(title))
    else
      var best := SortByDate(results.value)[0];
      if Normalize(query) == Normalize(best.name) then
        Ok(Found(title, best.id, best.name, FinalPoster(best, target, season), Year(best)))
      else
        Ok(Suggested(title, best.id, best.name, PosterUrl(best.posterPath, DefaultSize), Year(best)))
  }

  /** The decision is made on the first of the newest candidates alone: the title is found
      exactly when that candidate normalises like the query, it is a suggestion when it does
      not, and there is nothing when the search returns nothing. */
  lemma IdentifyDecision(title: string, search: SearchFn, season: SeasonLookup)
    requires search(ExtractSeason(title).0).Ok?
    ensures var query := ExtractSeason(title).0;
      var cands := search(query).value;
      var r := IdentifyTitle(title, search, season).value;
      (r.NotFound? <==> cands == [])
      && (cands != [] ==>
        var best := cands[NewestIndex(cands)];
        r.tmdbId == best.id && r.title == best.name && r.year == Year(best)
        && (r.Found? <==> Normalize(query) == Normalize(best.name))
        // Only an exact match looks up the season poster; a suggestion shows the series one.
        && (r.Found? ==> r.posterUrl == FinalPoster(best, ExtractSeason(title).1, season))
        && (r.Suggested? ==> r.posterUrl == PosterUrl(best.posterPath, DefaultSize)))
  {
    var cands := search(ExtractSeason(title).0).value;
    if cands != [] {
      BestIsFirstNewest(cands);
    }
  }

  /** The query and the target season, found and assigned as the source does. */
  method SeasonAndQuery(title: string) returns (query: string, targetSeason: Option<nat>)
    ensures (query, targetSeason) == ExtractSeason(title)
  {
    query := title;
    targetSeason := None;
    var m := FindSeason(title, 0);
    if m.Some? {
      targetSeason := Some(DigitsValue(title[m.value.digits..m.value.end]));
      query := Trim(title[..m.value.start] + title[m.value.end..]);
    }
  }

  /** The poster of an exact match, overridden by the season's poster when there is one. */
  method ChoosePoster(best: Series, targetSeason: Option<nat>, season: SeasonLookup) returns (finalPoster: Option<string>)
    ensures finalPoster == FinalPoster(best, targetSeason, season)
  {
    finalPoster := PosterUrl(best.posterPath, DefaultSize);
    if targetSeason.Some? {
      var details := season(best.id, targetSeason.value);
      if details.Ok? && details.value.Some? && details.value.value.posterPath.Some?
        && details.value.value.posterPath.value != [] {
        finalPoster := PosterUrl(details.value.value.posterPath, DefaultSize);
      }
    }
  }

  /** Builds the result for one title step by step, sorting the candidates in place. */
  method IdentifyOne(title: string, search: SearchFn, season: SeasonLookup) returns (r: Result<Identified, string>)
    ensures r == IdentifyTitle(title, search, season)
  {
    var query, targetSeason := SeasonAndQuery(title);
    var results := search(query);
    if results.Err? {
      return Err(results.error);
    }
    var cands := results.value;
    var a := new Series[|cands|](i requires 0 <= i < |cands| => cands[i]);
    assert a[..] == cands;
    SortInPlace(a);
    if a.Length == 0 {
      return Ok(NotFound(title));
    }
    var best := a[0];
    if Normalize(query) == Normalize(best.name) {
      var finalPoster := ChoosePoster(best, targetSeason, season);
      r := Ok(Found(title, best.id, best.name, finalPoster, Year(best)));
    } else {
      r := Ok(Suggested(title, best.id, best.name, PosterUrl(best.posterPath, DefaultSize), Year(best)));
    }
  }

  /** The results of `Promise.all` over the titles, each resolved by `identify`: the list of
      results, or the first failure. */
  function IdentifyAll(titles: seq<string>, identify: string -> Result<Identified, string>): (r: Result<seq<Identified>, string>)
    ensures r.Ok? ==> |r.value| == |titles|
  {
    if titles == [] then Ok([])
    else
      var init := IdentifyAll(titles[..|titles| - 1], identify);
      var last := identify(titles[|titles| - 1]);
      if init.Err? then init
      else if last.Err? then Err(last.error)
      else Ok(init.value + [last.value])
  }

  /** The call fails exactly when some title fails; otherwise result `i` is title `i`'s. */
  lemma {:induction false} IdentifyAllPerTitle(titles: seq<string>, identify: string -> Result<Identified, string>)
    ensures IdentifyAll(titles, identify).Err? <==> exists i :: 0 <= i < |titles| && identify(titles[i]).Err?
    ensures IdentifyAll(titles, identify).Ok? ==>
      forall i :: 0 <= i < |titles| ==> IdentifyAll(titles, identify).value[i] == identify(titles[i]).value
  {
    if titles != [] {
      var p := titles[..|titles| - 1];
      IdentifyAllPerTitle(p, identify);
      assert forall i :: 0 <= i < |p| ==> p[i] == titles[i];
    }
  }

  /** The output has one entry per title, in order, and entry `i` carries `titles[i]` as its
      input. */
  lemma IdentifyDramasKeepsInputs(titles: seq<string>, search: SearchFn, season: SeasonLookup)
    ensures var r := IdentifyAll(titles, t => IdentifyTitle(t, search, season));
      r.Ok? ==> |r.value| == |titles| && forall i :: 0 <= i < |titles| ==> r.value[i].input == titles[i]
  {
    var identify := t => IdentifyTitle(t, search, season);
    IdentifyAllPerTitle(titles, identify);
    var r := IdentifyAll(titles, identify);
    if r.Ok? {
      forall i | 0 <= i < |titles|
        ensures r.value[i].input == titles[i]
      {
        assert identify(titles[i]).Ok?;
      }
    }
  }

  /** `identifyDramas`: each title resolved in turn. */
  method IdentifyDramas(titles: seq<string>, search: SearchFn, season: SeasonLookup)
    returns (r: Result<seq<Identified>, string>)
    ensures r == IdentifyAll(titles, t => IdentifyTitle(t, search, season))
  {
    var identify := t => IdentifyTitle(t, search, season);
    var results: seq<Identified> := [];
    for i := 0 to |titles|
      invariant IdentifyAll(titles[..i], identify) == Ok(results)
    {
      var one := IdentifyOne(titles[i], search, season);
      assert one == identify(titles[i]);
      assert titles[..i + 1][..i] == titles[..i];
      if one.Err? {
        IdentifyAllErr(titles, i + 1, identify);
        return Err(one.error);
      }
      results := results + [one.value];
    }
    assert titles[..|titles|] == titles;
    return Ok(results);
  }

  /** Once a prefix fails, the whole list fails with the same error. */
  lemma {:induction false} IdentifyAllErr(titles: seq<string>, k: nat, identify: string -> Result<Identified, string>)
    requires k <= |titles| && IdentifyAll(titles[..k], identify).Err?
    ensures IdentifyAll(titles, identify) == IdentifyAll(titles[..k], identify)
    decreases |titles| - k
  {
    if k < |titles| {
      assert titles[..k + 1][..k] == titles[..k];
      IdentifyAllErr(titles, k + 1, identify);
    } else {
      assert titles[..k] == titles;
    }
  }
}
