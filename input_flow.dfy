/** The watch-list input page: cleaning and parsing the pasted list, merging it with the three
    favourites into a case-insensitively de-duplicated list, file validation, and the page's
    state transitions (generate, back, the uncertain-match list and the enable condition). */
module InputFlow {
  import opened Text
  import opened Wrappers

  // ------------------------------------------------------------------
  // Cleaning one line
  // ------------------------------------------------------------------

  /** The characters of the bullet class `[-•*]`. */
  predicate IsBullet(c: char)
  {
    c == '-' || c == '\U{2022}' || c == '*'
  }

  /** The pattern `^[-•*]\s*`: one leading bullet and the whitespace after it. */
  function StripBullet(s: string): string
  {
    if s != [] && IsBullet(s[0]) then TrimStart(s[1..]) else s
  }

  /** The number of ASCII digits at the start of `s`. */
  function LeadingDigits(s: string): (k: nat)
    ensures k <= |s|
    ensures forall i :: 0 <= i < k ==> IsDigit(s[i])
    ensures k == |s| || !IsDigit(s[k])
  {
    if s != [] && IsDigit(s[0]) then 1 + LeadingDigits(s[1..]) else 0
  }

  /** The pattern `^\d+\.\s*`: a leading list number such as "12." and the whitespace after it.
      The greedy `\d+` can only be followed by the dot, so the whole digit run must be. */
  function StripNumber(s: string): string
  {
    var k := LeadingDigits(s);
    if 0 < k < |s| && s[k] == '.' then TrimStart(s[k + 1..]) else s
  }

  /** `t` ends with a parenthesised four-digit year such as "(2024)". */
  predicate EndsWithYear(t: string)
  {
    |t| >= 6 && t[|t| - 6] == '(' && IsDigit(t[|t| - 5]) && IsDigit(t[|t| - 4])
    && IsDigit(t[|t| - 3]) && IsDigit(t[|t| - 2]) && t[|t| - 1] == ')'
  }

  /** The pattern `\s*\(\d{4}\)\s*$`: a trailing "(2024)" with the whitespace around it. The
      leftmost match starts at the whitespace run in front of the parenthesis. */
  function StripYear(s: string): string
  {
    var t := TrimEnd(s);
    if EndsWithYear(t) then TrimEnd(t[..|t| - 6]) else s
  }

  predicate NoLineTerminator(t: string)
  {
    forall i | 0 <= i < |t| :: !IsLineTerminator(t[i])
  }

  /** `t` matches `\s*.+$`: some whitespace, then at least one character, none of which is a
      line terminator (which `.` does not match), up to the end. */
  predicate RestOfLine(t: string)
  {
    t != [] && (NoLineTerminator(t) || (IsSpace(t[0]) && RestOfLine(t[1..])))
  }

  /** Position `j` holds a hyphen at which `\s*-\s*.+$` can match. */
  predicate IsDetailDash(s: string, j: int)
  {
    0 <= j < |s| && s[j] == '-' && RestOfLine(s[j + 1..])
  }

  /** The first detail hyphen at or after `from`. */
  function FirstDetailDash(s: string, from: nat): (r: Option<nat>)
    requires from <= |s|
    ensures r.Some? ==> from <= r.value && IsDetailDash(s, r.value)
    ensures r.Some? ==> forall k :: from <= k < r.value ==> !IsDetailDash(s, k)
    ensures r.None? ==> forall k :: from <= k < |s| ==> !IsDetailDash(s, k)
    decreases |s| - from
  {
    if from == |s| then None
    else if IsDetailDash(s, from) then Some(from)
    else FirstDetailDash(s, from + 1)
  }

  /** The pattern `\s*-\s*.+$`: the leftmost match starts at the whitespace in front of the
      first hyphen that has text after it, so the line is cut there. */
  function CutDetails(s: string): string
  {
    match FirstDetailDash(s, 0)
    case None => s
    case Some(j) => TrimEnd(s[..j])
  }

  /** The cleaning chain applied to each line of the pasted list, in the source's order. */
  function CleanLine(line: string): string
  {
    CutDetails(StripYear(StripNumber(StripBullet(Trim(line)))))
  }

  /** Each cleaning stage keeps a contiguous part of its input. */
  lemma StagesKeepInfix(s: string)
    ensures Contains(s, StripBullet(s)) && Contains(s, StripNumber(s))
    ensures Contains(s, StripYear(s)) && Contains(s, CutDetails(s))
  {
    StripBulletSuffix(s);
    StripNumberSuffix(s);
    StripYearPrefix(s);
    CutDetailsPrefix(s);
  }

  lemma StripBulletSuffix(s: string)
    ensures OccursAt(s, StripBullet(s), |s| - |StripBullet(s)|)
  {
    if s != [] && IsBullet(s[0]) {
      var u := s[1..];
      var t := TrimStart(u);
      var k := |s| - |t|;
      TrimStartSuffix(u);
      assert StripBullet(s) == t;
      assert t == u[k - 1..];
      assert u[k - 1..] == s[k..|s|];
    } else {
      assert StripBullet(s) == s;
      assert s[0..|s|] == s;
    }
  }

  lemma StripNumberSuffix(s: string)
    ensures OccursAt(s, StripNumber(s), |s| - |StripNumber(s)|)
  {
    var k := LeadingDigits(s);
    if 0 < k < |s| && s[k] == '.' {
      var t := TrimStart(s[k + 1..]);
      TrimStartSuffix(s[k + 1..]);
      assert t == s[k + 1..][|s| - k - 1 - |t|..];
      assert s[k + 1..][|s| - k - 1 - |t|..] == s[|s| - |t|..|s|];
    } else {
      assert s[0..|s|] == s;
    }
  }

  lemma StripYearPrefix(s: string)
    ensures OccursAt(s, StripYear(s), 0)
  {
    var t := TrimEnd(s);
    TrimEndPrefix(s);
    if EndsWithYear(t) {
      var u := t[..|t| - 6];
      TrimEndPrefix(u);
      assert u == s[..|u|];
      assert TrimEnd(u) == u[..|TrimEnd(u)|];
      assert TrimEnd(u) == s[..|TrimEnd(u)|];
    }
  }

  lemma CutDetailsPrefix(s: string)
    ensures OccursAt(s, CutDetails(s), 0)
  {
    match FirstDetailDash(s, 0)
    case None =>
    case Some(j) =>
      var u := s[..j];
      TrimEndPrefix(u);
      assert TrimEnd(u) == u[..|TrimEnd(u)|];
      assert TrimEnd(u) == s[..|TrimEnd(u)|];
  }

  lemma RestOfLineWithoutTerminators(t: string)
    requires NoLineTerminator(t)
    ensures RestOfLine(t) <==> t != []
  {
  }

  /** A part of a line without line terminators has none either. */
  lemma NoLineTerminatorAt(s: string, r: string, i: int)
    requires NoLineTerminator(s) && OccursAt(s, r, i)
    ensures NoLineTerminator(r)
  {
    forall k | 0 <= k < |r| ensures !IsLineTerminator(r[k]) {
      assert r[k] == s[i + k];
    }
  }

  /** A hyphen with text after it on the same line is a detail hyphen. */
  lemma DashWithTextIsDetail(s: string, k: nat)
    requires NoLineTerminator(s) && k + 1 < |s|
    ensures s[k] == '-' ==> IsDetailDash(s, k)
  {
    NoLineTerminatorAt(s, s[k + 1..], k + 1);
    RestOfLineWithoutTerminators(s[k + 1..]);
  }

  /** On a line without line terminators, `CutDetails` leaves no hyphen except possibly as
      the very last character. */
  lemma CutDetailsNoInnerDash(s: string)
    requires NoLineTerminator(s)
    ensures forall k :: 0 <= k < |CutDetails(s)| - 1 ==> CutDetails(s)[k] != '-'
  {
    var r := CutDetails(s);
    CutDetailsPrefix(s);
    forall k | 0 <= k < |r| - 1 ensures r[k] != '-' {
      assert r[k] == s[k];
      DashWithTextIsDetail(s, k);
    }
  }

  /** On a line without stray line terminators, a cleaned title keeps no hyphen except
      possibly as its very last character: everything from the first hyphen that is followed
      by text is cut off. */
  lemma CleanLineNoInnerDash(line: string)
    requires NoLineTerminator(line)
    ensures forall k :: 0 <= k < |CleanLine(line)| - 1 ==> CleanLine(line)[k] != '-'
  {
    StagesNoLineTerminator(line);
    CutDetailsNoInnerDash(StripYear(StripNumber(StripBullet(Trim(line)))));
  }

  /** The stages before the details cut add no line terminator. */
  lemma StagesNoLineTerminator(line: string)
    requires NoLineTerminator(line)
    ensures NoLineTerminator(StripYear(StripNumber(StripBullet(Trim(line)))))
  {
    var s0 := Trim(line);
    TrimInfix(line);
    NoLineTerminatorAt(line, s0, |line| - |TrimStart(line)|);
    StripStagesNoLineTerminator(s0);
  }

  lemma StripStagesNoLineTerminator(s0: string)
    requires NoLineTerminator(s0)
    ensures NoLineTerminator(StripYear(StripNumber(StripBullet(s0))))
  {
    StripBulletNoLineTerminator(s0);
    StripNumberNoLineTerminator(StripBullet(s0));
    StripYearNoLineTerminator(StripNumber(StripBullet(s0)));
  }

  lemma StripBulletNoLineTerminator(s: string)
    requires NoLineTerminator(s)
    ensures NoLineTerminator(StripBullet(s))
  {
    StripBulletSuffix(s);
    NoLineTerminatorAt(s, StripBullet(s), |s| - |StripBullet(s)|);
  }

  lemma StripNumberNoLineTerminator(s: string)
    requires NoLineTerminator(s)
    ensures NoLineTerminator(StripNumber(s))
  {
    StripNumberSuffix(s);
    NoLineTerminatorAt(s, StripNumber(s), |s| - |StripNumber(s)|);
  }

  lemma StripYearNoLineTerminator(s: string)
    requires NoLineTerminator(s)
    ensures NoLineTerminator(StripYear(s))
  {
    StripYearPrefix(s);
    NoLineTerminatorAt(s, StripYear(s), 0);
  }

  /** `s` has no whitespace at either end (what `trim` returns). */
  predicate IsTrimmed(s: string)
  {
    s == [] || (!IsSpace(s[0]) && !IsSpace(s[|s| - 1]))
  }

  lemma StripBulletTrimmed(s: string)
    requires IsTrimmed(s)
    ensures IsTrimmed(StripBullet(s))
  {
  }

  lemma StripNumberTrimmed(s: string)
    requires IsTrimmed(s)
    ensures IsTrimmed(StripNumber(s))
  {
  }

  lemma StripYearTrimmed(s: string)
    requires IsTrimmed(s)
    ensures IsTrimmed(StripYear(s))
  {
    if s != [] {
      assert TrimEnd(s) == s;
    }
  }

  lemma CutDetailsTrimmed(s: string)
    requires IsTrimmed(s)
    ensures IsTrimmed(CutDetails(s))
  {
  }

  /** Every cleaned line is trimmed: no stage leaves whitespace at either end. */
  lemma CleanLineTrimmed(line: string)
    ensures IsTrimmed(CleanLine(line))
  {
    var s0 := Trim(line);
    StripBulletTrimmed(s0);
    StripNumberTrimmed(StripBullet(s0));
    StripYearTrimmed(StripNumber(StripBullet(s0)));
    CutDetailsTrimmed(StripYear(StripNumber(StripBullet(s0))));
  }

  /** A hyphen inside a title is taken for the start of details and cut. */
  lemma HyphenExample()
    ensures CutDetails("Welcome to Samdal-ri") == "Welcome to Samdal"
  {
    var s := "Welcome to Samdal-ri";
    SamdalDash();
    var t := s[..17];
    assert t == "Welcome to Samdal";
    assert !IsSpace(t[16]);
  }

  lemma SamdalDash()
    ensures FirstDetailDash("Welcome to Samdal-ri", 0) == Some(17)
  {
    var s := "Welcome to Samdal-ri";
    assert s[17] == '-' && s[18..] == "ri";
    assert NoLineTerminator("ri");
    assert forall k :: 0 <= k < 17 ==> s[k] != '-';
    FirstDetailDashAt(s, 0, 17);
  }

  /** The first detail hyphen is the one with none before it. */
  lemma {:induction false} FirstDetailDashAt(s: string, from: nat, j: nat)
    requires from <= j && IsDetailDash(s, j)
    requires forall k :: from <= k < j ==> !IsDetailDash(s, k)
    ensures FirstDetailDash(s, from) == Some(j)
    decreases j - from
  {
    if from < j {
      FirstDetailDashAt(s, from + 1, j);
    }
  }

  // ------------------------------------------------------------------
  // Parsing the pasted list
  // ------------------------------------------------------------------

  /** The cleaned form of every line, in line order. */
  function CleanAll(lines: seq<string>): (r: seq<string>)
    ensures |r| == |lines|
    ensures forall k :: 0 <= k < |lines| ==> r[k] == CleanLine(lines[k])
  {
    seq(|lines|, k requires 0 <= k < |lines| => CleanLine(lines[k]))
  }

  /** The entries longer than two characters, in order. */
  function KeepLong(cs: seq<string>): seq<string>
  {
    if cs == [] then []
    else KeepLong(cs[..|cs| - 1]) + (if |cs[|cs| - 1]| > 2 then [cs[|cs| - 1]] else [])
  }

  /** What `parseDramas` returns for the pasted text. */
  function Parsed(text: string): seq<string>
  {
    if Trim(text) == [] then [] else KeepLong(CleanAll(SplitLines(text)))
  }

  /** `parseDramas`: split on "\n", clean each line and keep those longer than two characters. */
  method ParseDramas(text: string) returns (dramas: seq<string>)
    ensures dramas == Parsed(text)
  {
    if Trim(text) == [] {
      return [];
    }
    var lines := SplitLines(text);
    ghost var cleaned := CleanAll(lines);
    dramas := [];
    var i := 0;
    while i < |lines|
      invariant 0 <= i <= |lines|
      invariant dramas == KeepLong(cleaned[..i])
    {
      var c := CleanLine(lines[i]);
      KeepLongStep(cleaned, i);
      if |c| > 2 {
        dramas := dramas + [c];
      }
      i := i + 1;
    }
    assert cleaned[..i] == cleaned;
  }

  lemma KeepLongStep(cs: seq<string>, i: nat)
    requires i < |cs|
    ensures KeepLong(cs[..i + 1]) == KeepLong(cs[..i]) + if |cs[i]| > 2 then [cs[i]] else []
  {
    assert cs[..i + 1][..i] == cs[..i];
  }

  /** `xs` is `ys` with some elements left out, order kept. */
  predicate IsSubsequence(xs: seq<string>, ys: seq<string>)
  {
    if xs == [] then true
    else if ys == [] then false
    else if xs[|xs| - 1] == ys[|ys| - 1] then IsSubsequence(xs[..|xs| - 1], ys[..|ys| - 1])
    else IsSubsequence(xs, ys[..|ys| - 1])
  }

  /** The kept entries are at most as many as the entries, each longer than two characters,
      and every entry longer than two characters is kept. */
  lemma {:induction false} KeepLongShape(cs: seq<string>)
    ensures |KeepLong(cs)| <= |cs|
    ensures forall k :: 0 <= k < |KeepLong(cs)| ==> |KeepLong(cs)[k]| > 2
    ensures forall k :: 0 <= k < |cs| && |cs[k]| > 2 ==> cs[k] in KeepLong(cs)
  {
    if cs != [] {
      var init := cs[..|cs| - 1];
      KeepLongShape(init);
      forall k | 0 <= k < |cs| && |cs[k]| > 2 ensures cs[k] in KeepLong(cs) {
        if k < |cs| - 1 {
          assert cs[k] == init[k];
        }
      }
    }
  }

  /** The kept entries appear in the entries in the same order. */
  lemma {:induction false} KeepLongSubsequence(cs: seq<string>)
    ensures IsSubsequence(KeepLong(cs), cs)
  {
    if cs != [] {
      var init := cs[..|cs| - 1];
      var last := cs[|cs| - 1];
      var kept := KeepLong(init);
      KeepLongSubsequence(init);
      if |last| > 2 {
        assert KeepLong(cs) == kept + [last];
        assert (kept + [last])[..|kept|] == kept;
      } else {
        assert KeepLong(cs) == kept;
        KeepLongShape(init);
        if kept != [] {
          assert |kept[|kept| - 1]| > 2;
        }
      }
    }
  }

  /** Blank or whitespace-only text parses to nothing. */
  lemma ParsedBlank(text: string)
    requires AllSpace(text)
    ensures Parsed(text) == []
  {
    TrimEmptyIffAllSpace(text);
  }

  /** The parsed list keeps, in line order, exactly the cleaned lines longer than two
      characters: at most one entry per "\n"-separated line. */
  lemma ParsedEntries(text: string)
    requires !AllSpace(text)
    ensures var lines := SplitLines(text);
      |Parsed(text)| <= |lines|
      && (forall k :: 0 <= k < |Parsed(text)| ==> |Parsed(text)[k]| > 2)
      && (forall k :: 0 <= k < |lines| && |CleanLine(lines[k])| > 2 ==> CleanLine(lines[k]) in Parsed(text))
      && IsSubsequence(Parsed(text), CleanAll(lines))
  {
    TrimEmptyIffAllSpace(text);
    var lines := SplitLines(text);
    var cs := CleanAll(lines);
    assert Parsed(text) == KeepLong(cs);
    KeepLongShape(cs);
    KeepLongSubsequence(cs);
    forall k | 0 <= k < |lines| && |CleanLine(lines[k])| > 2
      ensures CleanLine(lines[k]) in Parsed(text)
    {
      assert cs[k] == CleanLine(lines[k]);
    }
  }

  /** Commas do not separate titles: text without a newline yields at most one title. */
  lemma ParsedSingleLine(text: string)
    requires '\n' !in text
    ensures |Parsed(text)| <= 1
    ensures |Parsed(text)| == 1 ==> Parsed(text) == [CleanLine(text)]
  {
    if Trim(text) != [] {
      assert SplitLines(text) == [text];
      var cs := CleanAll([text]);
      assert cs[..0] == [];
      assert KeepLong(cs) == if |CleanLine(text)| > 2 then [CleanLine(text)] else [];
    }
  }

  // ------------------------------------------------------------------
  // Merging with the favourites: an insertion-ordered Map
  // ------------------------------------------------------------------

  /** The de-duplication key `d.toLowerCase().trim()`. */
  function Key(d: string): string
  {
    Trim(Lower(d))
  }

  /** A trimmed favourite has the same key as the favourite as typed. */
  lemma KeyOfTrim(d: string)
    ensures Key(Trim(d)) == Key(d)
  {
    TrimStartLower(d);
    TrimEndLower(TrimStart(d));
    assert Lower(Trim(d)) == Trim(Lower(d));
    TrimIdempotent(Lower(d));
  }

  /** `LowerChar` keeps whitespace whitespace and everything else not whitespace. */
  lemma LowerCharSpace(c: char)
    ensures IsSpace(LowerChar(c)) <==> IsSpace(c)
  {
  }

  lemma {:induction false} TrimStartLower(s: string)
    ensures TrimStart(Lower(s)) == Lower(TrimStart(s))
    decreases |s|
  {
    if s != [] {
      LowerCharSpace(s[0]);
      assert Lower(s)[1..] == Lower(s[1..]);
      TrimStartLower(s[1..]);
    }
  }

  lemma {:induction false} TrimEndLower(s: string)
    ensures TrimEnd(Lower(s)) == Lower(TrimEnd(s))
    decreases |s|
  {
    if s != [] {
      var init := s[..|s| - 1];
      LowerCharSpace(s[|s| - 1]);
      assert Lower(s)[|s| - 1] == LowerChar(s[|s| - 1]);
      if IsSpace(s[|s| - 1]) {
        assert Lower(s)[..|s| - 1] == Lower(init);
        TrimEndLower(init);
        assert TrimEnd(s) == TrimEnd(init);
      } else {
        assert TrimEnd(s) == s;
      }
    }
  }

  /** One entry of the insertion-ordered `Map<string, string>`. */
  datatype Entry = Entry(key: string, value: string)

  function KeysOf(m: seq<Entry>): (r: seq<string>)
    ensures |r| == |m| && forall i :: 0 <= i < |m| ==> r[i] == m[i].key
  {
    seq(|m|, i requires 0 <= i < |m| => m[i].key)
  }

  function ValuesOf(m: seq<Entry>): (r: seq<string>)
    ensures |r| == |m| && forall i :: 0 <= i < |m| ==> r[i] == m[i].value
  {
    seq(|m|, i requires 0 <= i < |m| => m[i].value)
  }

  /** `map.get(k)`: the value of the first entry with key `k`. */
  function Lookup(m: seq<Entry>, k: string): (r: Option<string>)
    ensures r.Some? <==> k in KeysOf(m)
  {
    if m == [] then None
    else if m[0].key == k then Some(m[0].value)
    else
      assert KeysOf(m) == [m[0].key] + KeysOf(m[1..]);
      Lookup(m[1..], k)
  }

  /** `map.set(k, v)`: a present key keeps its position and takes the new value; a new key is
      appended. */
  function MapSet(m: seq<Entry>, k: string, v: string): (r: seq<Entry>)
    ensures KeysOf(r) == if k in KeysOf(m) then KeysOf(m) else KeysOf(m) + [k]
    decreases |m|
  {
    if m == [] then [Entry(k, v)]
    else if m[0].key == k then
      KeysOfCons(Entry(k, v), m[1..]);
      KeysOfCons(m[0], m[1..]);
      [Entry(k, v)] + m[1..]
    else
      var rest := MapSet(m[1..], k, v);
      KeysOfCons(m[0], m[1..]);
      KeysOfCons(m[0], rest);
      [m[0]] + rest
  }

  lemma KeysOfCons(e: Entry, m: seq<Entry>)
    ensures KeysOf([e] + m) == [e.key] + KeysOf(m)
  {
  }

  /** After `map.set(k, v)`, `k` maps to `v` and every other key to what it mapped to. */
  lemma {:induction false} MapSetLookup(m: seq<Entry>, k: string, v: string, k': string)
    ensures Lookup(MapSet(m, k, v), k') == if k' == k then Some(v) else Lookup(m, k')
  {
    if m != [] && m[0].key != k {
      MapSetLookup(m[1..], k, v, k');
      assert MapSet(m, k, v)[1..] == MapSet(m[1..], k, v);
    }
  }

  /** The keys of a list of titles, in order. The merge lemmas below take the key function as a
      parameter, so that their proofs do not look inside `Key`. */
  function KeyList(ds: seq<string>, key: string -> string): (r: seq<string>)
    ensures |r| == |ds| && forall i :: 0 <= i < |ds| ==> r[i] == key(ds[i])
  {
    seq(|ds|, i requires 0 <= i < |ds| => key(ds[i]))
  }

  lemma KeyListSnoc(ds: seq<string>, key: string -> string)
    requires ds != []
    ensures KeyList(ds, key) == KeyList(ds[..|ds| - 1], key) + [key(ds[|ds| - 1])]
  {
  }

  /** `ds.forEach(d => map.set(key(d), d))`, starting from `m`. */
  function SetAll(m: seq<Entry>, ds: seq<string>, key: string -> string): seq<Entry>
  {
    if ds == [] then m
    else
      var last := ds[|ds| - 1];
      MapSet(SetAll(m, ds[..|ds| - 1], key), key(last), last)
  }

  /** The favourites loop: a trimmed favourite is added only if its key is absent. */
  function AddMissing(m: seq<Entry>, ts: seq<string>, key: string -> string): seq<Entry>
    decreases |ts|
  {
    if ts == [] then m
    else
      var a := AddMissing(m, ts[..|ts| - 1], key);
      var last := ts[|ts| - 1];
      if key(last) in KeysOf(a) then a else MapSet(a, key(last), Trim(last))
  }

  /** `topDramas.filter(d => d.trim().length > 0)`. */
  function NonBlank(ts: seq<string>): (r: seq<string>)
    ensures forall i :: 0 <= i < |r| ==> Trim(r[i]) != []
    ensures forall d :: d in ts && Trim(d) != [] ==> d in r
    ensures (forall i :: 0 <= i < |ts| ==> Trim(ts[i]) != []) ==> r == ts
  {
    if ts == [] then []
    else (if Trim(ts[0]) != [] then [ts[0]] else []) + NonBlank(ts[1..])
  }

  /** The insertion-ordered map that `handleGenerate` builds. */
  function MergeMap(dramas: seq<string>, top: seq<string>): seq<Entry>
  {
    AddMissing(SetAll([], dramas, Key), NonBlank(top), Key)
  }

  /** `Array.from(uniqueMap.values())`. */
  function MergedTitles(dramas: seq<string>, top: seq<string>): seq<string>
  {
    ValuesOf(MergeMap(dramas, top))
  }

  /** The merge loops of `handleGenerate`, filling the map in place. */
  method MergeTitles(dramas: seq<string>, top: seq<string>) returns (merged: seq<string>)
    ensures merged == MergedTitles(dramas, top)
  {
    var validTop := NonBlank(top);
    var uniqueMap: seq<Entry> := [];
    for i := 0 to |dramas|
      invariant uniqueMap == SetAll([], dramas[..i], Key)
    {
      SetAllStep(dramas, i, Key);
      uniqueMap := MapSet(uniqueMap, Key(dramas[i]), dramas[i]);
    }
    assert dramas[..|dramas|] == dramas;
    ghost var afterMain := uniqueMap;
    for i := 0 to |validTop|
      invariant uniqueMap == AddMissing(afterMain, validTop[..i], Key)
    {
      AddMissingStep(afterMain, validTop, i, Key);
      var key := Key(validTop[i]);
      if key !in KeysOf(uniqueMap) {
        uniqueMap := MapSet(uniqueMap, key, Trim(validTop[i]));
      }
    }
    assert validTop[..|validTop|] == validTop;
    merged := ValuesOf(uniqueMap);
  }

  lemma SetAllStep(ds: seq<string>, i: nat, key: string -> string)
    requires i < |ds|
    ensures SetAll([], ds[..i + 1], key) == MapSet(SetAll([], ds[..i], key), key(ds[i]), ds[i])
  {
    assert ds[..i + 1][..i] == ds[..i];
  }

  lemma AddMissingStep(m: seq<Entry>, ts: seq<string>, i: nat, key: string -> string)
    requires i < |ts|
    ensures AddMissing(m, ts[..i + 1], key) ==
      var a := AddMissing(m, ts[..i], key);
      if key(ts[i]) in KeysOf(a) then a else MapSet(a, key(ts[i]), Trim(ts[i]))
  {
    assert ts[..i + 1][..i] == ts[..i];
  }

  /** Each key in order of its first appearance, starting from `acc`. */
  function DedupOnto(acc: seq<string>, ks: seq<string>): seq<string>
    decreases |ks|
  {
    if ks == [] then acc
    else
      var a := DedupOnto(acc, ks[..|ks| - 1]);
      if ks[|ks| - 1] in a then a else a + [ks[|ks| - 1]]
  }

  predicate Distinct(ks: seq<string>)
  {
    forall i, j :: 0 <= i < j < |ks| ==> ks[i] != ks[j]
  }

  lemma {:induction false} DedupOntoProps(acc: seq<string>, ks: seq<string>)
    ensures Distinct(acc) ==> Distinct(DedupOnto(acc, ks))
    ensures forall k :: k in DedupOnto(acc, ks) <==> k in acc || k in ks
    ensures |acc| <= |DedupOnto(acc, ks)| && DedupOnto(acc, ks)[..|acc|] == acc
  {
    if ks != [] {
      DedupOntoProps(acc, ks[..|ks| - 1]);
      assert forall k :: k in ks <==> k in ks[..|ks| - 1] || k == ks[|ks| - 1];
    }
  }

  lemma {:induction false} DedupOntoAppend(acc: seq<string>, xs: seq<string>, ys: seq<string>)
    ensures DedupOnto(DedupOnto(acc, xs), ys) == DedupOnto(acc, xs + ys)
  {
    if ys == [] {
      assert xs + ys == xs;
    } else {
      DedupOntoAppend(acc, xs, ys[..|ys| - 1]);
      assert (xs + ys)[..|xs + ys| - 1] == xs + ys[..|ys| - 1];
      assert (xs + ys)[|xs + ys| - 1] == ys[|ys| - 1];
    }
  }

  lemma {:induction false} SetAllKeys(m: seq<Entry>, ds: seq<string>, key: string -> string)
    ensures KeysOf(SetAll(m, ds, key)) == DedupOnto(KeysOf(m), KeyList(ds, key))
  {
    if ds != [] {
      SetAllKeys(m, ds[..|ds| - 1], key);
      KeyListSnoc(ds, key);
    }
  }

  lemma {:induction false} AddMissingKeys(m: seq<Entry>, ts: seq<string>, key: string -> string)
    ensures KeysOf(AddMissing(m, ts, key)) == DedupOnto(KeysOf(m), KeyList(ts, key))
  {
    if ts != [] {
      AddMissingKeys(m, ts[..|ts| - 1], key);
      KeyListSnoc(ts, key);
    }
  }

  /** Every entry is stored under the key of its own value. */
  predicate Coherent(m: seq<Entry>, key: string -> string)
  {
    forall i :: 0 <= i < |m| ==> key(m[i].value) == m[i].key
  }

  lemma {:induction false} MapSetCoherent(m: seq<Entry>, k: string, v: string, key: string -> string)
    requires Coherent(m, key) && key(v) == k
    ensures Coherent(MapSet(m, k, v), key)
  {
    if m != [] && m[0].key != k {
      MapSetCoherent(m[1..], k, v, key);
    }
  }

  lemma {:induction false} SetAllCoherent(ds: seq<string>, key: string -> string)
    ensures Coherent(SetAll([], ds, key), key)
  {
    if ds != [] {
      SetAllCoherent(ds[..|ds| - 1], key);
      MapSetCoherent(SetAll([], ds[..|ds| - 1], key), key(ds[|ds| - 1]), ds[|ds| - 1], key);
    }
  }

  lemma {:induction false} AddMissingCoherent(m: seq<Entry>, ts: seq<string>, key: string -> string)
    requires Coherent(m, key)
    requires forall d :: key(Trim(d)) == key(d)
    ensures Coherent(AddMissing(m, ts, key), key)
  {
    if ts != [] {
      AddMissingCoherent(m, ts[..|ts| - 1], key);
      var last := ts[|ts| - 1];
      MapSetCoherent(AddMissing(m, ts[..|ts| - 1], key), key(last), Trim(last), key);
    }
  }

  /** In a coherent map the values' keys are the map's keys. */
  lemma CoherentValues(m: seq<Entry>, key: string -> string)
    requires Coherent(m, key)
    ensures KeyList(ValuesOf(m), key) == KeysOf(m)
  {
  }

  lemma MergeCoherent(dramas: seq<string>, top: seq<string>)
    ensures Coherent(MergeMap(dramas, top), Key)
  {
    SetAllCoherent(dramas, Key);
    forall d ensures Key(Trim(d)) == Key(d) {
      KeyOfTrim(d);
    }
    AddMissingCoherent(SetAll([], dramas, Key), NonBlank(top), Key);
  }

  /** The merged list holds one title per key, keys in order of first appearance across the
      main list and then the non-blank favourites. */
  lemma MergeKeys(dramas: seq<string>, top: seq<string>)
    ensures KeysOf(MergeMap(dramas, top))
      == DedupOnto([], KeyList(dramas, Key) + KeyList(NonBlank(top), Key))
    ensures KeyList(MergedTitles(dramas, top), Key) == KeysOf(MergeMap(dramas, top))
  {
    SetAllKeys([], dramas, Key);
    AddMissingKeys(SetAll([], dramas, Key), NonBlank(top), Key);
    DedupOntoAppend([], KeyList(dramas, Key), KeyList(NonBlank(top), Key));
    MergeCoherent(dramas, top);
    CoherentValues(MergeMap(dramas, top), Key);
  }

  /** No two merged titles share a lower-cased, trimmed key. */
  lemma MergedDistinct(dramas: seq<string>, top: seq<string>)
    ensures var merged := MergedTitles(dramas, top);
      forall i, j :: 0 <= i < j < |merged| ==> Key(merged[i]) != Key(merged[j])
  {
    MergeKeys(dramas, top);
    DedupOntoProps([], KeyList(dramas, Key) + KeyList(NonBlank(top), Key));
    var merged := MergedTitles(dramas, top);
    forall i, j | 0 <= i < j < |merged| ensures Key(merged[i]) != Key(merged[j]) {
      assert KeyList(merged, Key)[i] == Key(merged[i]);
      assert KeyList(merged, Key)[j] == Key(merged[j]);
    }
  }

  /** The index of the first `k` in `ks`. */
  function FirstIndex(ks: seq<string>, k: string): (i: nat)
    requires k in ks
    ensures i < |ks| && ks[i] == k
    ensures forall j :: 0 <= j < i ==> ks[j] != k
    decreases |ks|
  {
    if ks[0] == k then 0 else 1 + FirstIndex(ks[1..], k)
  }

  /** The index of the last `k` in `ks`. */
  function LastIndex(ks: seq<string>, k: string): (i: nat)
    requires k in ks
    ensures i < |ks| && ks[i] == k
    ensures forall j :: i < j < |ks| ==> ks[j] != k
  {
    if ks[|ks| - 1] == k then |ks| - 1 else LastIndex(ks[..|ks| - 1], k)
  }

  lemma {:induction false} SetAllLookup(ds: seq<string>, k: string, key: string -> string)
    ensures k in KeyList(ds, key) ==>
      Lookup(SetAll([], ds, key), k) == Some(ds[LastIndex(KeyList(ds, key), k)])
    ensures k !in KeyList(ds, key) ==> Lookup(SetAll([], ds, key), k) == None
  {
    if ds != [] {
      var init := ds[..|ds| - 1];
      var last := ds[|ds| - 1];
      SetAllLookup(init, k, key);
      MapSetLookup(SetAll([], init, key), key(last), last, k);
      KeyListSnoc(ds, key);
      if key(last) != k && k in KeyList(ds, key) {
        assert KeyList(ds, key)[..|ds| - 1] == KeyList(init, key);
      }
    }
  }

  /** Adding the missing favourites leaves every key already present untouched. */
  lemma {:induction false} AddMissingKept(m: seq<Entry>, ts: seq<string>, k: string, key: string -> string)
    requires k in KeysOf(m)
    ensures Lookup(AddMissing(m, ts, key), k) == Lookup(m, k)
  {
    if ts != [] {
      var init := ts[..|ts| - 1];
      var last := ts[|ts| - 1];
      var a := AddMissing(m, init, key);
      AddMissingKept(m, init, k, key);
      if key(last) !in KeysOf(a) {
        AddMissingKeys(m, init, key);
        DedupOntoProps(KeysOf(m), KeyList(init, key));
        MapSetLookup(a, key(last), Trim(last), k);
      }
    }
  }

  /** A key that only the favourites have holds the first such favourite, trimmed. */
  lemma {:induction false} AddMissingAdded(m: seq<Entry>, ts: seq<string>, k: string, key: string -> string)
    requires k !in KeysOf(m) && k in KeyList(ts, key)
    ensures Lookup(AddMissing(m, ts, key), k) == Some(Trim(ts[FirstIndex(KeyList(ts, key), k)]))
    decreases |ts|
  {
    var init := ts[..|ts| - 1];
    var last := ts[|ts| - 1];
    var a := AddMissing(m, init, key);
    var ks := KeyList(ts, key);
    KeyListSnoc(ts, key);
    AddMissingKeys(m, init, key);
    DedupOntoProps(KeysOf(m), KeyList(init, key));
    if k in KeyList(init, key) {
      AddMissingAdded(m, init, k, key);
      var i := FirstIndex(KeyList(init, key), k);
      assert ks[i] == k;
      assert FirstIndex(ks, k) == i;
      assert k in KeysOf(a);
      if key(last) !in KeysOf(a) {
        MapSetLookup(a, key(last), Trim(last), k);
      }
    } else {
      assert FirstIndex(ks, k) == |ts| - 1;
      MapSetLookup(a, key(last), Trim(last), k);
    }
  }

  /** A key of the main list holds that list's last title with the key (at the position of its
      first one, by `MergeKeys`); a key only among the favourites holds the first such
      favourite, trimmed. */
  lemma MergedValues(dramas: seq<string>, top: seq<string>, k: string)
    ensures k in KeyList(dramas, Key) ==>
      Lookup(MergeMap(dramas, top), k) == Some(dramas[LastIndex(KeyList(dramas, Key), k)])
    ensures k !in KeyList(dramas, Key) && k in KeyList(NonBlank(top), Key) ==>
      Lookup(MergeMap(dramas, top), k)
      == Some(Trim(NonBlank(top)[FirstIndex(KeyList(NonBlank(top), Key), k)]))
  {
    SetAllLookup(dramas, k, Key);
    SetAllKeys([], dramas, Key);
    DedupOntoProps([], KeyList(dramas, Key));
    if k in KeyList(dramas, Key) {
      AddMissingKept(SetAll([], dramas, Key), NonBlank(top), k, Key);
    } else if k in KeyList(NonBlank(top), Key) {
      AddMissingAdded(SetAll([], dramas, Key), NonBlank(top), k, Key);
    }
  }

  /** One non-blank favourite is enough for a non-empty merged list. */
  lemma MergedNonEmpty(dramas: seq<string>, top: seq<string>)
    requires exists d :: d in top && Trim(d) != []
    ensures MergedTitles(dramas, top) != []
  {
    var d :| d in top && Trim(d) != [];
    MergeKeys(dramas, top);
    DedupOntoProps([], KeyList(dramas, Key) + KeyList(NonBlank(top), Key));
    assert d in NonBlank(top);
    var i :| 0 <= i < |NonBlank(top)| && NonBlank(top)[i] == d;
    assert Key(d) in KeyList(dramas, Key) + KeyList(NonBlank(top), Key) by {
      assert KeyList(NonBlank(top), Key)[i] == Key(d);
    }
  }

  // ------------------------------------------------------------------
  // Generate, file checks and the page's state
  // ------------------------------------------------------------------

  datatype PageState = InputPage | LoadingPage | ConfirmationPage

  datatype InputError = NoDramas | FileTooLarge | InvalidFile | MissingTop3

  /** An uncertain match shown on the confirmation screen. */
  datatype UncertainMatch = UncertainMatch(input: string, suggestion: string)

  /** The selected file's name and size in bytes. */
  datatype FileInfo = FileInfo(name: string, size: nat)

  /** Some favourite slot is blank after trimming. */
  predicate SomeBlank(top: seq<string>)
  {
    exists i :: 0 <= i < |top| && Trim(top[i]) == []
  }

  /** What `handleGenerate` decides: the list it schedules for confirmation, or the error. */
  function Generate(text: string, top: seq<string>): Result<seq<string>, InputError>
  {
    if SomeBlank(top) then Err(MissingTop3)
    else
      var merged := MergedTitles(Parsed(text), top);
      if merged == [] then Err(NoDramas) else Ok(merged)
  }

  /** Generating fails exactly when a favourite is blank; "no-dramas" cannot happen once all
      three favourites are filled. */
  lemma GenerateFailsOnlyOnBlankTop3(text: string, top: seq<string>)
    requires |top| == 3
    ensures Generate(text, top).Err? <==> SomeBlank(top)
    ensures Generate(text, top).Err? ==> Generate(text, top).error == MissingTop3
  {
    if !SomeBlank(top) {
      assert Trim(top[0]) != [];
      MergedNonEmpty(Parsed(text), top);
    }
  }

  /** The outcome of `Generate` for three favourites, case by case. */
  lemma GenerateOutcome(text: string, top: seq<string>)
    requires |top| == 3
    ensures SomeBlank(top) ==> Generate(text, top) == Err(MissingTop3)
    ensures !SomeBlank(top) ==> Generate(text, top) == Ok(MergedTitles(Parsed(text), top))
  {
    GenerateFailsOnlyOnBlankTop3(text, top);
  }

  /** The decision inside `handleGenerate`, in the source's order: parse the list, check the
      favourites, merge. */
  method DecideGenerate(text: string, top: seq<string>) returns (outcome: Result<seq<string>, InputError>)
    requires |top| == 3
    ensures outcome == Generate(text, top)
  {
    GenerateOutcome(text, top);
    var dramas := ParseDramas(text);
    if SomeBlank(top) {
      return Err(MissingTop3);
    }
    // The source's "no-dramas" branch is dead here: three non-blank favourites always
    // leave something to merge.
    var merged := MergeTitles(dramas, top);
    return Ok(merged);
  }

  /** The Generate button's enable condition. */
  predicate Enabled(text: string, top: seq<string>)
  {
    |Parsed(text)| > 0 && forall i :: 0 <= i < |top| ==> Trim(top[i]) != []
  }

  /** Every title of the main list is represented, by key, in the merged list. */
  lemma MergedCoversMain(dramas: seq<string>, top: seq<string>)
    ensures forall d :: d in dramas ==> Key(d) in KeyList(MergedTitles(dramas, top), Key)
  {
    MergeKeys(dramas, top);
    var all := KeyList(dramas, Key) + KeyList(NonBlank(top), Key);
    DedupOntoProps([], all);
    forall d | d in dramas ensures Key(d) in KeyList(MergedTitles(dramas, top), Key) {
      var i :| 0 <= i < |dramas| && dramas[i] == d;
      assert KeyList(dramas, Key)[i] == Key(d);
      assert all[i] == Key(d);
    }
  }

  /** An enabled button always leads to the loading page, with every parsed title's key in
      the scheduled list. */
  lemma EnabledGenerates(text: string, top: seq<string>)
    requires |top| == 3 && Enabled(text, top)
    ensures Generate(text, top).Ok?
    ensures forall d :: d in Parsed(text) ==> Key(d) in KeyList(Generate(text, top).value, Key)
  {
    GenerateFailsOnlyOnBlankTop3(text, top);
    MergedCoversMain(Parsed(text), top);
  }

  /** The largest accepted file, 5 MiB. */
  const MaxFileSize: nat := 5 * 1024 * 1024

  /** The index of the last `c` in `s`, or -1 (`lastIndexOf`). */
  function LastIndexOf(s: string, c: char): (i: int)
    ensures -1 <= i < |s|
    ensures i >= 0 ==> s[i] == c
    ensures forall j :: i < j < |s| ==> s[j] != c
  {
    if s == [] then -1
    else if s[|s| - 1] == c then |s| - 1
    else LastIndexOf(s[..|s| - 1], c)
  }

  /** `name.substring(name.lastIndexOf("."))`: from the last dot, or the whole name when there
      is none (`substring(-1)` starts at 0). */
  function Extension(name: string): string
  {
    var i := LastIndexOf(name, '.');
    if i < 0 then name else name[i..]
  }

  /** The accepted extensions, `validTypes`. */
  const ValidTypes: seq<string> := [".txt", ".csv", ".xlsx"]

  /** The error `handleFileSelect` reports for a file, if any; size is checked first. */
  function FileCheck(f: FileInfo): Option<InputError>
  {
    if f.size > MaxFileSize then Some(FileTooLarge)
    else if Lower(Extension(f.name)) !in ValidTypes then Some(InvalidFile)
    else None
  }

  /** `name` ends with `ext`, ignoring ASCII case. */
  predicate EndsWithIgnoringCase(name: string, ext: string)
  {
    |ext| <= |name| && Lower(name[|name| - |ext|..]) == ext
  }

  lemma ExtensionMatches(name: string, ext: string)
    requires |ext| >= 1 && ext[0] == '.' && '.' !in ext[1..]
    ensures Lower(Extension(name)) == ext <==> EndsWithIgnoringCase(name, ext)
  {
    var i := LastIndexOf(name, '.');
    if Lower(Extension(name)) == ext {
      assert name[|name| - |ext|..] == name[i..];
    }
    if EndsWithIgnoringCase(name, ext) {
      var j := |name| - |ext|;
      assert Lower(name[j..])[0] == '.';
      assert name[j] == '.';
      forall k | j < k < |name| ensures name[k] != '.' {
        assert Lower(name[j..])[k - j] == ext[k - j];
        assert ext[k - j] == ext[1..][k - j - 1];
      }
      assert i == j;
    }
  }

  /** A file is accepted exactly when it is at most 5 MiB and its name ends in .txt, .csv or
      .xlsx in any case; a file over the limit is refused as too large whatever its name. */
  lemma FileCheckAccepts(f: FileInfo)
    ensures FileCheck(f) == None <==>
      (f.size <= MaxFileSize
       && (EndsWithIgnoringCase(f.name, ".txt") || EndsWithIgnoringCase(f.name, ".csv")
           || EndsWithIgnoringCase(f.name, ".xlsx")))
    ensures f.size > MaxFileSize ==> FileCheck(f) == Some(FileTooLarge)
  {
    var e := Lower(Extension(f.name));
    assert e in ValidTypes <==> e == ".txt" || e == ".csv" || e == ".xlsx";
    ExtensionMatches(f.name, ".txt");
    ExtensionMatches(f.name, ".csv");
    ExtensionMatches(f.name, ".xlsx");
  }

  /** `splice(index, 1)` on a copy: removes the element at `index`; an index past the end
      removes nothing. */
  function RemoveAt<T>(s: seq<T>, index: nat): (r: seq<T>)
    ensures index >= |s| ==> r == s
    ensures index < |s| ==> |r| == |s| - 1
    ensures index < |s| ==> forall j :: 0 <= j < index ==> r[j] == s[j]
    ensures index < |s| ==> forall j :: index <= j < |r| ==> r[j] == s[j + 1]
  {
    if index < |s| then s[..index] + s[index + 1..] else s
  }

  /** The first index holding `x`, as `findIndex(d => d === x)`. */
  function FindFirst(s: seq<string>, x: string): (r: Option<nat>)
    ensures r.None? <==> x !in s
    ensures r.Some? ==> r.value < |s| && s[r.value] == x && x !in s[..r.value]
  {
    if s == [] then None
    else if s[0] == x then Some(0)
    else match FindFirst(s[1..], x)
      case None => None
      case Some(i) =>
        assert s[..i + 1] == [s[0]] + s[1..][..i];
        Some(i + 1)
  }

  /** Replaces the first occurrence of `x` by `y`; nothing changes when `x` is absent. */
  function ReplaceFirst(s: seq<string>, x: string, y: string): (r: seq<string>)
    ensures |r| == |s|
    ensures x !in s ==> r == s
    ensures x in s ==> exists i :: 0 <= i < |s| && s[i] == x && x !in s[..i] && r == s[i := y]
  {
    match FindFirst(s, x)
    case None => s
    case Some(i) => s[i := y]
  }

  /** The input page's React state. */
  class InputPageState {
    var inputText: string
    var error: Option<InputError>
    var pageState: PageState
    var parsedDramas: seq<string>
    var uncertainMatches: seq<UncertainMatch>
    var topDramas: seq<string>

    /** The favourites are always a triple. */
    predicate Valid()
      reads this
    {
      |topDramas| == 3
    }

    constructor ()
      ensures Valid()
      ensures inputText == "" && error == None && pageState == InputPage
      ensures parsedDramas == [] && uncertainMatches == [] && topDramas == ["", "", ""]
    {
      inputText := "";
      error := None;
      pageState := InputPage;
      parsedDramas := [];
      uncertainMatches := [];
      topDramas := ["", "", ""];
    }

    /** `handleTextChange`: new text, error cleared. */
    method HandleTextChange(text: string)
      modifies this`inputText, this`error
      ensures inputText == text && error == None
    {
      inputText := text;
      error := None;
    }

    /** `handleTopDramaChange`: one favourite slot replaced, error cleared. */
    method HandleTopDramaChange(index: nat, value: string)
      requires Valid() && index < 3
      modifies this`topDramas, this`error
      ensures Valid()
      ensures topDramas == old(topDramas)[index := value] && error == None
    {
      topDramas := topDramas[index := value];
      error := None;
    }

    /** `handleFileSelect` up to starting the reader: an absent file does nothing; a refused file
        sets the error; an accepted one starts reading (`FileLoaded` is its completion). */
    method HandleFileSelect(file: Option<FileInfo>) returns (startsReading: bool)
      modifies this`error
      ensures startsReading <==> file.Some? && FileCheck(file.value).None?
      ensures file.Some? && FileCheck(file.value).Some? ==> error == FileCheck(file.value)
      ensures !(file.Some? && FileCheck(file.value).Some?) ==> error == old(error)
    {
      if file.None? {
        return false;
      }
      var f := file.value;
      if f.size > MaxFileSize {
        error := Some(FileTooLarge);
        return false;
      }
      var ext := Extension(f.name);
      if Lower(ext) !in ValidTypes {
        error := Some(InvalidFile);
        return false;
      }
      startsReading := true;
    }

    /** The reader's `onload`: the file's text replaces the input, error cleared. */
    method FileLoaded(text: string)
      modifies this`inputText, this`error
      ensures inputText == text && error == None
    {
      inputText := text;
      error := None;
    }

    /** `handleGenerate`: on a blank favourite the error is set and nothing else happens;
        otherwise the page goes to loading and the merged list is scheduled for confirmation. */
    method HandleGenerate() returns (scheduled: Option<seq<string>>)
      requires Valid()
      modifies this`error, this`pageState
      ensures Valid()
      ensures Generate(inputText, topDramas).Err? ==>
        scheduled == None && error == Some(Generate(inputText, topDramas).error)
        && pageState == old(pageState)
      ensures Generate(inputText, topDramas).Ok? ==>
        scheduled == Some(Generate(inputText, topDramas).value)
        && error == None && pageState == LoadingPage
    {
      var outcome := DecideGenerate(inputText, topDramas);
      if outcome.Err? {
        error := Some(outcome.error);
        scheduled := None;
      } else {
        pageState := LoadingPage;
        error := None;
        scheduled := Some(outcome.value);
      }
      assert Generate(inputText, topDramas) == outcome;
    }

    /** The loading timer's completion: the scheduled list becomes the confirmed list. */
    method FinishLoading(dramas: seq<string>)
      modifies this`parsedDramas, this`pageState
      ensures parsedDramas == dramas && pageState == ConfirmationPage
    {
      parsedDramas := dramas;
      pageState := ConfirmationPage;
    }

    /** `handleBack`: back to the input page with the parsed and uncertain lists emptied. */
    method HandleBack()
      modifies this`pageState, this`parsedDramas, this`uncertainMatches
      ensures pageState == InputPage && parsedDramas == [] && uncertainMatches == []
    {
      pageState := InputPage;
      parsedDramas := [];
      uncertainMatches := [];
    }

    /** `handleRemoveUncertain`: the uncertain entry at `index` is dropped, the rest keep their
        order. */
    method HandleRemoveUncertain(index: nat)
      modifies this`uncertainMatches
      ensures uncertainMatches == RemoveAt(old(uncertainMatches), index)
    {
      uncertainMatches := RemoveAt(uncertainMatches, index);
    }

    /** `handleUsesuggestion`: the first confirmed title equal to the entry's input becomes its
        suggestion, then the entry is removed. The source reads `uncertainMatches[index].input`,
        so the index must exist. */
    method HandleUseSuggestion(index: nat)
      requires index < |uncertainMatches|
      modifies this`parsedDramas, this`uncertainMatches
      ensures var m := old(uncertainMatches)[index];
        parsedDramas == ReplaceFirst(old(parsedDramas), m.input, m.suggestion)
      ensures uncertainMatches == RemoveAt(old(uncertainMatches), index)
    {
      var m := uncertainMatches[index];
      var dramaIndex := FindFirst(parsedDramas, m.input);
      if dramaIndex.Some? {
        parsedDramas := parsedDramas[dramaIndex.value := m.suggestion];
      }
      HandleRemoveUncertain(index);
    }

    /** `isValid`: the Generate button is enabled. */
    function IsValid(): bool
      reads this
    {
      Enabled(inputText, topDramas)
    }
  }
}
