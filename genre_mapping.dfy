/** Genre classification (`getTopGenres`): the keyword table is scanned keyword by keyword,
    then the TMDB category names add their labels, then two fallbacks fill an empty result;
    the first two labels found, without repeats, are the drama's genres. */
module GenreMapping {
  import opened Text
  import opened Wrappers
  import opened Actions

  /** The custom genre labels. */
  datatype Genre =
    | Romance | SciFi | Comedy | Thriller | Fantasy | Action | Historical | SliceOfLife
    | Melodrama | Medical | Legal | School | Youth | Drama

  function Label(g: Genre): string
  {
    match g
    case Romance => "Romance"
    case SciFi => "Sci-Fi"
    case Comedy => "Comedy"
    case Thriller => "Thriller"
    case Fantasy => "Fantasy"
    case Action => "Action"
    case Historical => "Historical"
    case SliceOfLife => "Slice of Life"
    case Melodrama => "Melodrama"
    case Medical => "Medical"
    case Legal => "Legal"
    case School => "School"
    case Youth => "Youth"
    case Drama => "Drama"
  }

  /** The table entries for one label. */
  function Tagged(keys: seq<string>, g: Genre): (r: seq<(string, Genre)>)
    ensures |r| == |keys|
    ensures forall j :: 0 <= j < |r| ==> r[j] == (keys[j], g)
  {
    seq(|keys|, j requires 0 <= j < |keys| => (keys[j], g))
  }

  /** Joins the per-label groups. */
  function Concat(parts: seq<seq<(string, Genre)>>): seq<(string, Genre)>
  {
    if parts == [] then [] else Concat(parts[..|parts| - 1]) + parts[|parts| - 1]
  }

  // The keyword table, in its declaration order (the order `Object.entries` visits it);
  // its entries are grouped by label.

  const HistoricalKeys: seq<string> := [
    "joseon",
    "joseon dynasty",
    "joseon dynasty (1392-1910)",
    "historical",
    "period drama",
    "dynasty",
    "royal",
    "royal family",
    "sageuk"
  ]

  const FantasyKeys: seq<string> := [
    "time travel",
    "supernatural",
    "gumiho",
    "ghost",
    "mythology",
    "immortal",
    "reincarnation"
  ]

  const ThrillerKeys: seq<string> := [
    "thriller",
    "murder",
    "serial killer",
    "detective",
    "police",
    "investigation",
    "crime",
    "mystery",
    "mysterious",
    "suspense",
    "psychopath"
  ]

  const SciFiKeys: seq<string> := [
    "alien",
    "robot",
    "artificial intelligence",
    "future",
    "distopia",
    "zombie"
  ]

  const MedicalKeys: seq<string> := [
    "doctor",
    "hospital",
    "surgery",
    "nurse"
  ]

  const LegalKeys: seq<string> := [
    "lawyer",
    "prosecutor",
    "judge",
    "court"
  ]

  const MelodramaKeys: seq<string> := [
    "melodrama",
    "affair",
    "infidelity",
    "tragedy",
    "betrayal",
    "secret",
    "scandal",
    "makjang"
  ]

  const RomanceKeys: seq<string> := [
    "romance",
    "first love",
    "marriage",
    "dating",
    "love triangle"
  ]

  const SchoolKeys: seq<string> := [
    "high school",
    "student",
    "university",
    "campus",
    "bully"
  ]

  const YouthKeys: seq<string> := [
    "youth",
    "coming of age",
    "dream",
    "college",
    "20s"
  ]

  const ActionKeys: seq<string> := [
    "gangster",
    "mafia",
    "revenge",
    "martial arts",
    "fight"
  ]

  const KeywordMap: seq<(string, Genre)> := Concat([
    Tagged(HistoricalKeys, Historical),
    Tagged(FantasyKeys, Fantasy),
    Tagged(ThrillerKeys, Thriller),
    Tagged(SciFiKeys, SciFi),
    Tagged(MedicalKeys, Medical),
    Tagged(LegalKeys, Legal),
    Tagged(MelodramaKeys, Melodrama),
    Tagged(RomanceKeys, Romance),
    Tagged(SchoolKeys, School),
    Tagged(YouthKeys, Youth),
    Tagged(ActionKeys, Action)])

  // ------------------------------------------------------------------
  // Ordered sets
  // ------------------------------------------------------------------

  /** `Set.add` on an insertion-ordered set. */
  function AddSet(s: seq<Genre>, g: Genre): (r: seq<Genre>)
    ensures g in r
    ensures forall x :: x in r <==> x in s || x == g
  {
    if g in s then s else s + [g]
  }

  /** Adds each of `gs` in turn. */
  function AddAll(s: seq<Genre>, gs: seq<Genre>): (r: seq<Genre>)
  {
    if gs == [] then s else AddSet(AddAll(s, gs[..|gs| - 1]), gs[|gs| - 1])
  }

  predicate NoRepeats(s: seq<Genre>)
  {
    forall i, j :: 0 <= i < j < |s| ==> s[i] != s[j]
  }

  /** Adding keeps the labels distinct and keeps what was there as a prefix. */
  lemma {:induction false} AddAllProps(s: seq<Genre>, gs: seq<Genre>)
    requires NoRepeats(s)
    ensures NoRepeats(AddAll(s, gs))
    ensures |s| <= |AddAll(s, gs)| && AddAll(s, gs)[..|s|] == s
    ensures forall x :: x in AddAll(s, gs) <==> x in s || x in gs
  {
    AddAllMembers(s, gs);
    AddAllPrefix(s, gs);
    AddAllNoRepeats(s, gs);
  }

  lemma {:induction false} AddAllMembers(s: seq<Genre>, gs: seq<Genre>)
    ensures forall x :: x in AddAll(s, gs) <==> x in s || x in gs
  {
    if gs != [] {
      AddAllMembers(s, gs[..|gs| - 1]);
      assert gs == gs[..|gs| - 1] + [gs[|gs| - 1]];
    }
  }

  lemma {:induction false} AddAllPrefix(s: seq<Genre>, gs: seq<Genre>)
    ensures |s| <= |AddAll(s, gs)| && AddAll(s, gs)[..|s|] == s
  {
    if gs != [] {
      AddAllPrefix(s, gs[..|gs| - 1]);
      var t := AddAll(s, gs[..|gs| - 1]);
      if gs[|gs| - 1] !in t {
        assert (t + [gs[|gs| - 1]])[..|s|] == t[..|s|];
      }
    }
  }

  lemma {:induction false} AddAllNoRepeats(s: seq<Genre>, gs: seq<Genre>)
    requires NoRepeats(s)
    ensures NoRepeats(AddAll(s, gs))
  {
    if gs != [] {
      AddAllNoRepeats(s, gs[..|gs| - 1]);
    }
  }

  lemma {:induction false} AddAllAppend(s: seq<Genre>, a: seq<Genre>, b: seq<Genre>)
    ensures AddAll(s, a + b) == AddAll(AddAll(s, a), b)
  {
    if b == [] {
      assert a + b == a;
    } else {
      assert (a + b)[..|a + b| - 1] == a + b[..|b| - 1];
      AddAllAppend(s, a, b[..|b| - 1]);
    }
  }

  // ------------------------------------------------------------------
  // Keyword hits
  // ------------------------------------------------------------------

  /** The labels of the table entries whose key occurs in keyword `k`, in table order. */
  function Hits(k: string, table: seq<(string, Genre)>): seq<Genre>
  {
    if table == [] then []
    else
      var e := table[|table| - 1];
      Hits(k, table[..|table| - 1]) + (if Includes(k, e.0) then [e.1] else [])
  }

  /** The labels every keyword contributes, keyword by keyword. */
  function KeywordHits(kws: seq<string>, table: seq<(string, Genre)>): seq<Genre>
  {
    if kws == [] then []
    else KeywordHits(kws[..|kws| - 1], table) + Hits(kws[|kws| - 1], table)
  }

  /** A label comes from a keyword exactly when some table key with that label occurs in
      that keyword. */
  lemma {:induction false} HitsMembers(k: string, table: seq<(string, Genre)>, g: Genre)
    ensures g in Hits(k, table) <==> exists j :: 0 <= j < |table| && table[j].1 == g && Contains(k, table[j].0)
  {
    if table != [] {
      var init := table[..|table| - 1];
      HitsMembers(k, init, g);
      assert forall j :: 0 <= j < |init| ==> init[j] == table[j];
    }
  }

  lemma KeywordHitsMembers(kws: seq<string>, table: seq<(string, Genre)>, g: Genre)
    ensures g in KeywordHits(kws, table) <==>
      exists i, j :: 0 <= i < |kws| && 0 <= j < |table| && table[j].1 == g && Contains(kws[i], table[j].0)
  {
    if g in KeywordHits(kws, table) {
      var i, j := KeywordHitSource(kws, table, g);
    }
    if exists i, j :: 0 <= i < |kws| && 0 <= j < |table| && table[j].1 == g && Contains(kws[i], table[j].0) {
      var i, j :| 0 <= i < |kws| && 0 <= j < |table| && table[j].1 == g && Contains(kws[i], table[j].0);
      HitFrom(kws[i], table, j);
      KeywordHitFrom(kws, table, i, g);
    }
  }

  lemma {:induction false} KeywordHitSource(kws: seq<string>, table: seq<(string, Genre)>, g: Genre)
    returns (i: nat, j: nat)
    requires g in KeywordHits(kws, table)
    ensures i < |kws| && j < |table| && table[j].1 == g && Contains(kws[i], table[j].0)
  {
    var init := kws[..|kws| - 1];
    var last := kws[|kws| - 1];
    if g in KeywordHits(init, table) {
      i, j := KeywordHitSource(init, table, g);
      assert kws[i] == init[i];
    } else {
      HitsMembers(last, table, g);
      i := |kws| - 1;
      j :| 0 <= j < |table| && table[j].1 == g && Contains(last, table[j].0);
    }
  }

  /** A label one keyword contributes is among the labels of all keywords. */
  lemma {:induction false} KeywordHitFrom(kws: seq<string>, table: seq<(string, Genre)>, i: nat, g: Genre)
    requires i < |kws| && g in Hits(kws[i], table)
    ensures g in KeywordHits(kws, table)
    decreases |kws|
  {
    if i < |kws| - 1 {
      KeywordHitFrom(kws[..|kws| - 1], table, i, g);
      KeywordHitsGrow(kws, table, g);
    }
  }

  /** A label of the keywords but the last is a label of all of them. */
  lemma KeywordHitsGrow(kws: seq<string>, table: seq<(string, Genre)>, g: Genre)
    requires kws != [] && g in KeywordHits(kws[..|kws| - 1], table)
    ensures g in KeywordHits(kws, table)
  {
  }

  /** A table key found in the keyword contributes its label. */
  lemma HitFrom(k: string, table: seq<(string, Genre)>, j: nat)
    requires j < |table| && Contains(k, table[j].0)
    ensures table[j].1 in Hits(k, table)
  {
    HitsMembers(k, table, table[j].1);
  }

  lemma HitsStep(k: string, table: seq<(string, Genre)>, j: nat)
    requires j < |table|
    ensures Hits(k, table[..j + 1]) == Hits(k, table[..j]) + (if Includes(k, table[j].0) then [table[j].1] else [])
  {
    assert table[..j + 1][..j] == table[..j];
  }

  /** The inner loop of `getTopGenres`: one keyword against every table entry. */
  method AddKeywordHits(found: seq<Genre>, k: string, table: seq<(string, Genre)>) returns (r: seq<Genre>)
    ensures r == AddAll(found, Hits(k, table))
  {
    r := found;
    for j := 0 to |table|
      invariant r == AddAll(found, Hits(k, table[..j]))
    {
      var hit := Includes(k, table[j].0);
      if hit {
        r := AddSet(r, table[j].1);
      }
      HitsStep(k, table, j);
      AddAllAppend(found, Hits(k, table[..j]), if hit then [table[j].1] else []);
    }
    assert table[..|table|] == table;
  }

  /** The outer loop of `getTopGenres`: every keyword in turn. */
  method CollectKeywordHits(keywords: seq<string>, table: seq<(string, Genre)>) returns (found: seq<Genre>)
    ensures found == AddAll([], KeywordHits(keywords, table))
  {
    found := [];
    for i := 0 to |keywords|
      invariant found == AddAll([], KeywordHits(keywords[..i], table))
    {
      found := AddKeywordHits(found, keywords[i], table);
      assert keywords[..i + 1][..i] == keywords[..i];
      AddAllAppend([], KeywordHits(keywords[..i], table), Hits(keywords[i], table));
    }
    assert keywords[..|keywords|] == keywords;
  }

  // ------------------------------------------------------------------
  // The classification
  // ------------------------------------------------------------------

  function LowerAll(ss: seq<string>): (r: seq<string>)
    ensures |r| == |ss|
    ensures forall i :: 0 <= i < |ss| ==> r[i] == Lower(ss[i])
  {
    seq(|ss|, i requires 0 <= i < |ss| => Lower(ss[i]))
  }

  /** Some keyword contains one of `subs` (`keywords.some(k => k.includes(...) || ...)`). */
  predicate SomeIncludes(kws: seq<string>, subs: seq<string>)
  {
    exists i, j :: 0 <= i < |kws| && 0 <= j < |subs| && Includes(kws[i], subs[j])
  }

  /** The lower-cased keywords, absent counting as none. */
  function Keywords(d: EnrichedDrama): seq<string>
  {
    LowerAll(if d.keywords.Some? then d.keywords.value else [])
  }

  /** The lower-cased category names, absent counting as none. */
  function CategoryNames(d: EnrichedDrama): seq<string>
  {
    LowerAll(if d.genres.Some? then d.genres.value else [])
  }

  predicate HasSciFiCategory(names: seq<string>)
  {
    "scifi & fantasy" in names || "sci-fi & fantasy" in names
  }

  predicate HasActionCategory(names: seq<string>)
  {
    "action & adventure" in names
  }

  predicate HasCrimeCategory(names: seq<string>)
  {
    "crime" in names || "mystery" in names
  }

  predicate HasComedyCategory(names: seq<string>)
  {
    "comedy" in names
  }

  predicate HasDramaCategory(names: seq<string>)
  {
    "drama" in names
  }

  predicate MentionsTech(kws: seq<string>)
  {
    SomeIncludes(kws, ["tech", "space", "alien"])
  }

  predicate MentionsLife(kws: seq<string>)
  {
    SomeIncludes(kws, ["friend", "neighbor", "life"])
  }

  /** The label a rule adds, if it fires. */
  function Rule(fires: bool, g: Genre): seq<Genre>
  {
    if fires then [g] else []
  }

  /** The labels the category rules add, in the order the rules run. */
  function CategoryLabels(names: seq<string>, kws: seq<string>): seq<Genre>
  {
    Rule(HasSciFiCategory(names), if MentionsTech(kws) then SciFi else Fantasy)
    + Rule(HasActionCategory(names), Action)
    + Rule(HasCrimeCategory(names), Thriller)
    + Rule(HasComedyCategory(names), Comedy)
  }

  /** The empty-result fallbacks: keywords about friends, neighbours or life give Slice of
      Life; failing that, a generic "drama" category gives Romance and anything else Drama. */
  function Fallbacks(f: seq<Genre>, names: seq<string>, kws: seq<string>): seq<Genre>
  {
    if f != [] then f
    else if MentionsLife(kws) then [SliceOfLife]
    else if HasDramaCategory(names) then [Romance]
    else [Drama]
  }

  /** Every label found, given the keyword hits: the hits, then the category labels, as an
      ordered set, with the fallbacks when that is empty. */
  function Classify(hits: seq<Genre>, names: seq<string>, kws: seq<string>): seq<Genre>
  {
    Fallbacks(AddAll([], hits + CategoryLabels(names, kws)), names, kws)
  }

  /** The labels found for `d` when the keyword table is `table`. */
  function FoundWith(d: EnrichedDrama, table: seq<(string, Genre)>): seq<Genre>
  {
    Classify(KeywordHits(Keywords(d), table), CategoryNames(d), Keywords(d))
  }

  /** Every label `getTopGenres` finds, in discovery order, before the cut to two. */
  function FoundGenres(d: EnrichedDrama): seq<Genre>
  {
    FoundWith(d, KeywordMap)
  }

  /** `slice(0, 2)`. */
  function FirstTwo(f: seq<Genre>): seq<Genre>
  {
    if |f| <= 2 then f else f[..2]
  }

  /** `getTopGenres`: the first two labels found. */
  function TopGenres(d: EnrichedDrama): seq<Genre>
  {
    FirstTwo(FoundGenres(d))
  }

  lemma AddAllOne(s: seq<Genre>, g: Genre)
    ensures AddAll(s, [g]) == AddSet(s, g)
  {
    assert [g][..0] == [];
  }

  /** Step 2 of `getTopGenres`: the category rules, in order, on the labels the keywords
      gave. */
  method ApplyCategoryRules(fromKeywords: seq<Genre>, genreNames: seq<string>, keywords: seq<string>)
    returns (found: seq<Genre>)
    ensures found == AddAll(fromKeywords, CategoryLabels(genreNames, keywords))
  {
    found := fromKeywords;
    if HasSciFiCategory(genreNames) {
      if MentionsTech(keywords) {
        found := AddSet(found, SciFi);
      } else {
        found := AddSet(found, Fantasy);
      }
    }
    ghost var added := Rule(HasSciFiCategory(genreNames), if MentionsTech(keywords) then SciFi else Fantasy);
    AddAllOne(fromKeywords, if MentionsTech(keywords) then SciFi else Fantasy);
    assert found == AddAll(fromKeywords, added);
    if HasActionCategory(genreNames) {
      AddAllOne(found, Action);
      found := AddSet(found, Action);
    }
    AddAllAppend(fromKeywords, added, Rule(HasActionCategory(genreNames), Action));
    added := added + Rule(HasActionCategory(genreNames), Action);
    if HasCrimeCategory(genreNames) {
      AddAllOne(found, Thriller);
      found := AddSet(found, Thriller);
    }
    AddAllAppend(fromKeywords, added, Rule(HasCrimeCategory(genreNames), Thriller));
    added := added + Rule(HasCrimeCategory(genreNames), Thriller);
    if HasComedyCategory(genreNames) {
      AddAllOne(found, Comedy);
      found := AddSet(found, Comedy);
    }
    AddAllAppend(fromKeywords, added, Rule(HasComedyCategory(genreNames), Comedy));
    added := added + Rule(HasComedyCategory(genreNames), Comedy);
  }

  /** The body of `getTopGenres`, for any keyword table: nested loops over the keywords and
      the table, the category rules, the two fallbacks for an empty set, and the first two
      labels. */
  method TopGenresWith(d: EnrichedDrama, table: seq<(string, Genre)>) returns (r: seq<Genre>)
    ensures r == FirstTwo(FoundWith(d, table))
  {
    var tmdbGenres := if d.genres.Some? then d.genres.value else [];
    var keywords := LowerAll(if d.keywords.Some? then d.keywords.value else []);
    var found := CollectKeywordHits(keywords, table);
    var genreNames := LowerAll(tmdbGenres);
    found := ApplyCategoryRules(found, genreNames, keywords);
    AddAllAppend([], KeywordHits(keywords, table), CategoryLabels(genreNames, keywords));
    ghost var categorized := found;
    if |found| == 0 {
      if MentionsLife(keywords) {
        found := AddSet(found, SliceOfLife);
        assert found == [SliceOfLife];
      }
    }
    if |found| == 0 {
      if HasDramaCategory(genreNames) {
        found := AddSet(found, Romance);
        assert found == [Romance];
      } else {
        found := AddSet(found, Drama);
        assert found == [Drama];
      }
    }
    assert found == Fallbacks(categorized, genreNames, keywords);
    r := FirstTwo(found);
  }

  /** `getTopGenres`, with the keyword table above. */
  method GetTopGenres(d: EnrichedDrama) returns (r: seq<Genre>)
    ensures r == TopGenres(d)
  {
    r := TopGenresWith(d, KeywordMap);
  }

  /** `getDominantGenre`: the first of the top genres. */
  function DominantGenre(d: EnrichedDrama): Genre
  {
    TopGenres(d)[0]
  }

  // ------------------------------------------------------------------
  // Properties of the classification, for any keyword hits
  // ------------------------------------------------------------------

  /** Some category rule adds a label. */
  predicate CategoryRuleFires(names: seq<string>)
  {
    HasSciFiCategory(names) || HasActionCategory(names) || HasCrimeCategory(names)
      || HasComedyCategory(names)
  }

  /** Which labels the category rules add. */
  lemma CategoryLabelsMembers(names: seq<string>, kws: seq<string>, g: Genre)
    ensures CategoryLabels(names, kws) == [] <==> !CategoryRuleFires(names)
    ensures g in CategoryLabels(names, kws) <==>
      (g == SciFi && HasSciFiCategory(names) && MentionsTech(kws))
      || (g == Fantasy && HasSciFiCategory(names) && !MentionsTech(kws))
      || (g == Action && HasActionCategory(names))
      || (g == Thriller && HasCrimeCategory(names))
      || (g == Comedy && HasComedyCategory(names))
  {
  }

  /** The result has at least one label and no label twice. */
  lemma ClassifyShape(hits: seq<Genre>, names: seq<string>, kws: seq<string>)
    ensures |Classify(hits, names, kws)| >= 1
    ensures NoRepeats(Classify(hits, names, kws))
  {
    AddAllProps([], hits + CategoryLabels(names, kws));
  }

  /** When the keywords or a category rule gave something, the result holds exactly the
      keyword hits and the category labels; otherwise it is the single fallback label. */
  lemma ClassifyMembers(hits: seq<Genre>, names: seq<string>, kws: seq<string>, g: Genre)
    ensures hits != [] || CategoryRuleFires(names) ==>
      (g in Classify(hits, names, kws) <==> g in hits || g in CategoryLabels(names, kws))
    ensures hits == [] && !CategoryRuleFires(names) ==>
      Classify(hits, names, kws) ==
        [if MentionsLife(kws) then SliceOfLife else if HasDramaCategory(names) then Romance else Drama]
  {
    var all := hits + CategoryLabels(names, kws);
    AddAllProps([], all);
    CategoryLabelsMembers(names, kws, g);
  }

  /** Keyword hits come first: the labels they give, deduplicated in discovery order, are a
      prefix of the result. */
  lemma ClassifyKeywordsFirst(hits: seq<Genre>, names: seq<string>, kws: seq<string>)
    ensures var h := AddAll([], hits);
      |h| <= |Classify(hits, names, kws)| && Classify(hits, names, kws)[..|h|] == h
  {
    var cats := CategoryLabels(names, kws);
    AddAllProps([], hits);
    AddAllProps(AddAll([], hits), cats);
    AddAllAppend([], hits, cats);
    if AddAll([], hits + cats) == [] {
      assert AddAll([], hits) == [];
    }
  }

  /** Slice of Life, when it is not a keyword label, appears only alone, exactly when
      nothing else matched and a keyword mentions a friend, a neighbour or life. */
  lemma ClassifySliceOfLife(hits: seq<Genre>, names: seq<string>, kws: seq<string>)
    requires SliceOfLife !in hits
    ensures SliceOfLife in Classify(hits, names, kws) <==>
      hits == [] && !CategoryRuleFires(names) && MentionsLife(kws)
    ensures SliceOfLife in Classify(hits, names, kws) ==> Classify(hits, names, kws) == [SliceOfLife]
  {
    ClassifyMembers(hits, names, kws, SliceOfLife);
    CategoryLabelsMembers(names, kws, SliceOfLife);
    AddAllProps([], hits + CategoryLabels(names, kws));
  }

  lemma {:induction false} AddAllFirst(gs: seq<Genre>)
    requires gs != []
    ensures AddAll([], gs) != [] && AddAll([], gs)[0] == gs[0]
  {
    var init := gs[..|gs| - 1];
    if init == [] {
      assert AddAll([], gs) == AddSet([], gs[0]);
    } else {
      AddAllFirst(init);
      AddAllProps([], init);
      AddSetProps(AddAll([], init), gs[|gs| - 1]);
      assert gs[0] == init[0];
    }
  }

  lemma AddSetProps(s: seq<Genre>, g: Genre)
    requires NoRepeats(s)
    ensures |s| <= |AddSet(s, g)| && AddSet(s, g)[..|s|] == s
  {
    assert (s + [g])[..|s|] == s;
  }

  // ------------------------------------------------------------------
  // Properties of `getTopGenres` and `getDominantGenre`
  // ------------------------------------------------------------------

  /** The only labels the keyword table gives. */
  lemma {:induction false} TableLabels(g: Genre)
    requires g in {SliceOfLife, Comedy, Drama}
    ensures forall j :: 0 <= j < |KeywordMap| ==> KeywordMap[j].1 != g
  {
    ConcatLabels([Tagged(HistoricalKeys, Historical), Tagged(FantasyKeys, Fantasy),
      Tagged(ThrillerKeys, Thriller), Tagged(SciFiKeys, SciFi), Tagged(MedicalKeys, Medical),
      Tagged(LegalKeys, Legal), Tagged(MelodramaKeys, Melodrama), Tagged(RomanceKeys, Romance),
      Tagged(SchoolKeys, School), Tagged(YouthKeys, Youth), Tagged(ActionKeys, Action)], g);
  }

  lemma {:induction false} ConcatLabels(parts: seq<seq<(string, Genre)>>, g: Genre)
    requires forall p, j :: 0 <= p < |parts| && 0 <= j < |parts[p]| ==> parts[p][j].1 != g
    ensures forall j :: 0 <= j < |Concat(parts)| ==> Concat(parts)[j].1 != g
  {
    if parts != [] {
      ConcatLabels(parts[..|parts| - 1], g);
    }
  }

  /** `getTopGenres` always returns one or two labels, never the same one twice. */
  lemma TopGenresShape(d: EnrichedDrama)
    ensures 1 <= |TopGenres(d)| <= 2
    ensures NoRepeats(TopGenres(d))
  {
    ClassifyShape(KeywordHits(Keywords(d), KeywordMap), CategoryNames(d), Keywords(d));
  }

  /** When some keyword matches the table, the first keyword label is the dominant genre,
      whatever the categories say. */
  lemma DominantFromKeywords(d: EnrichedDrama)
    requires KeywordHits(Keywords(d), KeywordMap) != []
    ensures DominantGenre(d) == KeywordHits(Keywords(d), KeywordMap)[0]
  {
    var hits := KeywordHits(Keywords(d), KeywordMap);
    AddAllFirst(hits);
    ClassifyKeywordsFirst(hits, CategoryNames(d), Keywords(d));
    var f := Classify(hits, CategoryNames(d), Keywords(d));
    assert f[0] == f[..|AddAll([], hits)|][0];
  }

  /** Slice of Life is never a keyword label, so it is only ever the whole result, exactly
      when nothing else matched and a keyword mentions a friend, a neighbour or life. */
  lemma SliceOfLifeAlone(d: EnrichedDrama)
    ensures SliceOfLife in TopGenres(d) <==>
      KeywordHits(Keywords(d), KeywordMap) == [] && !CategoryRuleFires(CategoryNames(d))
      && MentionsLife(Keywords(d))
    ensures SliceOfLife in TopGenres(d) ==> TopGenres(d) == [SliceOfLife]
  {
    var hits := KeywordHits(Keywords(d), KeywordMap);
    TableLabels(SliceOfLife);
    NoHitsFor(Keywords(d), KeywordMap, SliceOfLife);
    FirstTwoSliceOfLife(hits, CategoryNames(d), Keywords(d));
  }

  /** A label that no row of the table carries is never a keyword hit. */
  lemma NoHitsFor(kws: seq<string>, table: seq<(string, Genre)>, g: Genre)
    requires forall j :: 0 <= j < |table| ==> table[j].1 != g
    ensures g !in KeywordHits(kws, table)
  {
    KeywordHitsMembers(kws, table, g);
  }

  /** `ClassifySliceOfLife`, after the cut to two. */
  lemma FirstTwoSliceOfLife(hits: seq<Genre>, names: seq<string>, kws: seq<string>)
    requires SliceOfLife !in hits
    ensures SliceOfLife in FirstTwo(Classify(hits, names, kws)) <==>
      hits == [] && !CategoryRuleFires(names) && MentionsLife(kws)
    ensures SliceOfLife in FirstTwo(Classify(hits, names, kws)) ==>
      FirstTwo(Classify(hits, names, kws)) == [SliceOfLife]
  {
    ClassifySliceOfLife(hits, names, kws);
    var f := Classify(hits, names, kws);
    if SliceOfLife in FirstTwo(f) {
      assert SliceOfLife in f;
    }
  }

  /** A drama with no genres and no keywords is classified as plain Drama; one whose only
      category is "Drama" counts as Romance. */
  lemma BareDramaFallbacks(d: EnrichedDrama)
    requires d.keywords.None? || d.keywords.value == []
    ensures d.genres.None? ==> TopGenres(d) == [Drama]
    ensures d.genres == Some(["Drama"]) ==> TopGenres(d) == [Romance]
  {
    assert Keywords(d) == [];
    assert !MentionsLife([]);
    var hits := KeywordHits([], KeywordMap);
    assert hits == [];
    if d.genres == Some(["Drama"]) {
      assert Lower("Drama") == "drama";
      assert CategoryNames(d) == ["drama"];
      assert CategoryLabels(["drama"], []) == [];
    }
  }
}
