# K-drama Wrapped: a verified model of the title-to-vibe pipeline

This project models the data pipeline of the "K-drama Wrapped" web app in Dafny. The user
pastes a watch list. The app cleans it into titles, resolves each title against TMDB, labels
every drama with one or two custom genres, and derives a viewer "vibe". The slideshow shows
viewing totals and is navigated by buttons and the mouse wheel. A debug page computes the same
summary.

One module per source file:

| module | file | source |
|---|---|---|
| `InputFlow` | `input_flow.dfy` | `components/InputFlow.tsx`: line cleaning, `parseDramas`, the merge in `handleGenerate`, file checks, and the page's state handlers (a class) |
| `Actions` | `actions.dfy` | `app/actions.ts` `identifyDramas`: season extraction, the in-place date sort, `normalize`, the found/suggestion/none decision, the season poster |
| `Tmdb` | `tmdb.dfy` | `lib/tmdb.ts`: `getPosterUrl`, the request shapes, the Korean filter, and the outcomes of `searchSeries`/`getSeasonDetails` |
| `GenreMapping` | `genre_mapping.dfy` | `lib/genre-mapping.ts`: `KEYWORD_MAP`, `getTopGenres` (its loops as methods), `getDominantGenre` |
| `VibeCalculator` | `vibe_calculator.dfy` | `lib/vibe-calculator.ts` `calculateVibe`: the counting loop, the stable ranking, the rule cascade |
| `WrappedFlow` | `wrapped_flow.dfy` | `components/WrappedFlow.tsx`: the totals and the slide navigation (a class) |
| `DebugSummary` | `debug_summary.dfy` | `app/debug/summary/page.tsx`: the summary and its top-three genre ranking |
| `Text` | `text.dfy` | JavaScript string primitives the sources use: `trim`, ASCII `toLowerCase`, `includes`, `split("\n")`, code-point order, decimal printing |
| `Wrappers` | `wrappers.dfy` | `Option` (null or undefined) and `Result` (a thrown error) |

All files are verified together, with Dafny 4.11:

    dafny verify *.dfy

The proofs also go through with `--resource-limit 2000000` (each proof stays well under it) and
with `--warn-contradictory-assumptions`.

Modelling conventions:

- JavaScript `Map`, `Set` and object key order is insertion order, so these are sequences.
- Network calls are parameters: a search function, a season lookup, a `fetch` from request to
  response. The API key is a parameter and the clock `Date.now()` is an argument.
- The `EnrichedDrama` record (title, genres, keywords, episode count, total runtime, each
  optional) is defined in `Actions`, because the enrichment code that defines it is not part
  of this model.
- Percentages `count / total * 100 > p` are compared exactly, as `100 * count > p * total`.
- `Math.round(m / 60)` on non-negative minutes is `(m + 30) / 60`.

Behaviour worth noting:

- The parser does not split lines on commas. It strips no emoji and no ratings. It does not
  de-duplicate the parsed list; only the merge does.
- The merge keeps a repeated key at its first position but with the text of its last
  occurrence in the main list (`InputFlow.MergedValues`). It does not keep the first-seen
  casing.
- Candidates are ranked by air date only. Exactness is tested on the newest candidate alone,
  so an older exact title loses to a newer inexact one (`Actions.IdentifyDecision`). There is
  no "exact matches first" ranking.
- `calculateVibe([])` throws, reading the genre of an undefined top entry. It is modelled as
  `Err` (`VibeCalculator.VibeErrIffEmpty`), not as "romantic".

## Model

| member | source | states |
|---|---|---|
| Text.TrimStartSuffix | components/InputFlow.tsx:106 | leading-whitespace removal keeps a suffix and drops only whitespace |
| Text.TrimEndPrefix | components/InputFlow.tsx:106 | trailing-whitespace removal keeps a prefix and drops only whitespace |
| Text.Trim | components/InputFlow.tsx:106 | the trimmed string starts and ends with non-whitespace |
| Text.TrimInfix | components/InputFlow.tsx:106 | `trim` removes only whitespace, on both sides of the part it keeps |
| Text.TrimContained | components/InputFlow.tsx:106 | the trimmed string occurs in the original |
| Text.TrimIdempotent | components/InputFlow.tsx:106 | trimming twice is trimming once |
| Text.TrimEmptyIffAllSpace | components/InputFlow.tsx:99 | `!text.trim()` holds exactly when the text is all whitespace |
| Text.Lower | app/actions.ts:48 | ASCII `toLowerCase` maps each character and keeps the length |
| Text.LowerIdempotent | app/actions.ts:48 | lower-casing twice is lower-casing once |
| Text.Includes | lib/genre-mapping.ts:124 | `k.includes(key)` holds exactly when `key` occurs somewhere in `k` |
| Text.SplitLines | components/InputFlow.tsx:101 | `split("\n")` gives at least one piece, no piece holds a newline, and joining the pieces with newlines gives the text back |
| Text.SplitJoin | components/InputFlow.tsx:101 | splitting joined newline-free lines gives the lines back |
| Text.LexLessTransitive | app/actions.ts:41 | the string order `localeCompare` is modelled by is transitive |
| Text.LexLessTotal | app/actions.ts:41 | and total: two different dates are always ordered |
| Text.DecimalRoundTrip | lib/tmdb.ts:89 | a number printed in decimal into a URL reads back as the same number |
| Tmdb.PosterUrl | lib/tmdb.ts:116-119 | no URL exactly for a null or empty path; otherwise the URL starts with the image base and the size |
| Tmdb.PosterUrlRoundTrip | lib/tmdb.ts:116-119 | size and path can be read back from every built URL, so different posters get different URLs |
| Tmdb.KeyPlacement | lib/tmdb.ts:32-47 | in both requests a key over 60 characters travels only in a `Bearer` header and a shorter key only as the `api_key` parameter |
| Tmdb.SearchParams | lib/tmdb.ts:44-50 | the search parameters are `query`, `language=en-US`, `page=1`, in that order, after the optional `api_key` |
| Tmdb.BuildSearchRequest | lib/tmdb.ts:32-50 | building the headers and parameters step by step gives the search request |
| Tmdb.BuildSeasonRequest | lib/tmdb.ts:88-96 | building the season request step by step gives the season request |
| Tmdb.KoreanOnly | lib/tmdb.ts:70-74 | every kept result is Korean by country or by language |
| Tmdb.KoreanOnlyMembers | lib/tmdb.ts:70-74 | a result is kept exactly when it is Korean |
| Tmdb.KoreanOnlyAppend | lib/tmdb.ts:70-74 | the filter keeps relative order (it distributes over concatenation) |
| Tmdb.KoreanOnlyKeepsKorean | lib/tmdb.ts:70-74 | an all-Korean list passes unchanged, so the filter is idempotent |
| Tmdb.SearchOutcome | lib/tmdb.ts:62-82 | a thrown error, a failed status or absent `results` gives `[]`; a successful response with `results` gives exactly its Korean entries, in order (`KoreanOnly`); every result returned is Korean and came from the body |
| Tmdb.SearchSeries | lib/tmdb.ts:25-83 | a missing or empty key throws; otherwise the outcome of the search request built for the key |
| Tmdb.SeasonOutcome | lib/tmdb.ts:104-113 | a thrown error or failed status gives null; a successful response gives its body |
| Tmdb.GetSeasonDetails | lib/tmdb.ts:85-114 | a missing key gives null without a request; otherwise the outcome of the season request |
| Actions.MatchTail | app/actions.ts:21 | `\s*(\d+)` after the keyword matches exactly when greedy whitespace is followed by a digit |
| Actions.SeasonMatchAt | app/actions.ts:21 | a match at `i` starts with `s` or `S` and is "season" or "s", then whitespace, then digits; conversely "s" or "season" followed by `\s*\d` always matches, and nothing matches at any other character |
| Actions.FindSeason | app/actions.ts:22 | the match found is the leftmost: no match starts earlier |
| Actions.ExtractSeasonNoMatch | app/actions.ts:24-32 | a title with no match is searched untrimmed, with no season |
| Actions.FindSeasonSkips | app/actions.ts:22 | the search passes over a stretch without the letter `s` |
| Actions.StrangerThingsExample | app/actions.ts:21-31 | "Stranger Things 2" is searched as "Stranger Thing", season 2 |
| Actions.SortPermutes | app/actions.ts:38-42 | the date sort is a permutation |
| Actions.SortSorted | app/actions.ts:38-42 | the date sort puts later dates (missing = "0000") first |
| Actions.SortStable | app/actions.ts:38-42 | candidates with equal dates keep their order |
| Actions.BestIsFirstNewest | app/actions.ts:44 | the best match is the first candidate with the latest date |
| Actions.NewestIndexIsFirstNewest | app/actions.ts:44 | the reference scan finds a candidate no other is newer than, with every earlier one strictly older |
| Actions.SortInPlace | app/actions.ts:38-42 | the in-place sort leaves the array equal to the date sort of its old contents |
| Actions.InsertLast | app/actions.ts:38-42 | one insertion step places the new element into the sorted prefix and leaves the rest of the array alone |
| Actions.ShiftRight | app/actions.ts:38-42 | the shift moves exactly the elements the new one sorts before one place right |
| Actions.InsertAt | app/actions.ts:38-42 | an insertion goes right after the last element that is not older |
| Actions.Normalize | app/actions.ts:48 | the output holds only `[a-z0-9]` |
| Actions.NormalizeIdempotent | app/actions.ts:48 | normalising twice is normalising once |
| Actions.NormalizeAppend | app/actions.ts:48 | normalisation works piece by piece |
| Actions.NormalizeIgnoresCase | app/actions.ts:48 | case does not change the normal form |
| Actions.NormalizeDropsOthers | app/actions.ts:48 | a character outside `[A-Za-z0-9]` disappears |
| Actions.IsUncertain | app/actions.ts:80-91 | `isUncertain` is true exactly for a suggestion |
| Actions.Suggestion | app/actions.ts:92 | `suggestion` is present exactly for a suggestion, and equals the suggested title |
| Actions.Year | app/actions.ts:79 | the year is absent exactly for an empty date; otherwise it is the date's first four characters (fewer if the date is shorter) |
| Actions.FinalPoster | app/actions.ts:58-71 | when a season was asked for and the lookup returns a season with a non-empty `poster_path`, the URL of that season poster (its path reads back from the URL); in every other case (no season, the lookup throws, returns null, or a season without a poster) the series poster |
| Actions.IdentifyTitle | app/actions.ts:19-100 | each result carries its title as input; it fails exactly when the search throws |
| Actions.IdentifyDecision | app/actions.ts:44-100 | none exactly when there are no candidates; otherwise id, name and year come from the first newest candidate, and the title is found exactly when that candidate normalises like the query; only a found title gets the season-poster override, a suggestion shows the series poster |
| Actions.SeasonAndQuery | app/actions.ts:21-32 | the step-by-step assignment of `query` and `targetSeason` gives the extracted pair |
| Actions.ChoosePoster | app/actions.ts:58-71 | the reassigned `finalPoster` is the poster rule's result |
| Actions.IdentifyOne | app/actions.ts:19-100 | the per-title body, with its in-place sort, computes the per-title result |
| Actions.IdentifyAllPerTitle | app/actions.ts:18-19 | the call fails exactly when some title fails; otherwise result `i` is title `i`'s |
| Actions.IdentifyDramasKeepsInputs | app/actions.ts:18-19 | one result per title, in order, result `i` having `input == titles[i]` |
| Actions.IdentifyDramas | app/actions.ts:16-105 | `identifyDramas` returns the per-title results in order |
| Actions.IdentifyAllErr | app/actions.ts:18 | once a prefix of titles fails, the whole call fails with that error |
| InputFlow.LeadingDigits | components/InputFlow.tsx:108 | the longest run of leading digits |
| InputFlow.FirstDetailDash | components/InputFlow.tsx:110 | the first hyphen at which the details pattern can match |
| InputFlow.StagesKeepInfix | components/InputFlow.tsx:107-110 | each cleaning stage keeps a contiguous part of its input |
| InputFlow.StripBulletSuffix | components/InputFlow.tsx:107 | bullet stripping keeps a suffix |
| InputFlow.StripNumberSuffix | components/InputFlow.tsx:108 | number stripping keeps a suffix |
| InputFlow.StripYearPrefix | components/InputFlow.tsx:109 | year stripping keeps a prefix |
| InputFlow.CutDetailsPrefix | components/InputFlow.tsx:110 | cutting details keeps a prefix |
| InputFlow.CutDetailsNoInnerDash | components/InputFlow.tsx:110 | after the cut no hyphen is left except possibly as the last character |
| InputFlow.CleanLineNoInnerDash | components/InputFlow.tsx:106-110 | a cleaned title has no hyphen except possibly as its last character |
| InputFlow.CleanLineTrimmed | components/InputFlow.tsx:106-110 | every cleaned line has no whitespace at either end |
| InputFlow.HyphenExample | components/InputFlow.tsx:110 | "Welcome to Samdal-ri" is cut to "Welcome to Samdal" |
| InputFlow.CleanAll | components/InputFlow.tsx:104-110 | one cleaned entry per line, in line order |
| InputFlow.ParseDramas | components/InputFlow.tsx:98-118 | the `forEach`/`push` loop returns the parsed list |
| InputFlow.KeepLongShape | components/InputFlow.tsx:112-114 | every kept entry is longer than two characters, and every such entry is kept |
| InputFlow.KeepLongSubsequence | components/InputFlow.tsx:112-114 | the kept entries keep their order |
| InputFlow.ParsedBlank | components/InputFlow.tsx:99 | blank or whitespace-only text parses to nothing |
| InputFlow.ParsedEntries | components/InputFlow.tsx:101-117 | at most one entry per line, in line order, each longer than two characters, every long cleaned line present |
| InputFlow.ParsedSingleLine | components/InputFlow.tsx:101 | text without a newline gives at most one title: commas do not separate titles |
| InputFlow.KeyOfTrim | components/InputFlow.tsx:138-140 | a trimmed favourite has the same key as the favourite as typed |
| InputFlow.Lookup | components/InputFlow.tsx:139 | `map.has(k)` holds exactly when `k` is a key |
| InputFlow.MapSet | components/InputFlow.tsx:134 | `map.set` keeps a present key in place and appends a new one |
| InputFlow.MapSetLookup | components/InputFlow.tsx:134 | after `set(k, v)`, `k` maps to `v` and every other key is unchanged |
| InputFlow.NonBlank | components/InputFlow.tsx:130 | the filter keeps exactly the favourites that are non-blank after trimming |
| InputFlow.MergeTitles | components/InputFlow.tsx:131-144 | the two map-filling loops give the merged list |
| InputFlow.MergeKeys | components/InputFlow.tsx:131-144 | the merged list has one title per key, keys in order of first appearance across the main list and then the favourites |
| InputFlow.MergedDistinct | components/InputFlow.tsx:131-144 | no two merged titles share a lower-cased trimmed key |
| InputFlow.MergedValues | components/InputFlow.tsx:134-142 | a main-list key holds the last main-list title with it; a key only among the favourites holds the first such favourite, trimmed |
| InputFlow.MergedNonEmpty | components/InputFlow.tsx:137-149 | one non-blank favourite makes the merged list non-empty |
| InputFlow.MergedCoversMain | components/InputFlow.tsx:134 | every parsed title is represented by its key in the merged list |
| InputFlow.GenerateFailsOnlyOnBlankTop3 | components/InputFlow.tsx:124-149 | with three favourites, generating fails exactly when one is blank, always with `missing-top3`; `no-dramas` cannot happen |
| InputFlow.EnabledGenerates | components/InputFlow.tsx:229-231 | an enabled button always reaches loading, with every parsed title's key in the scheduled list |
| InputFlow.LastIndexOf | components/InputFlow.tsx:71 | `lastIndexOf` returns the last position of the character, or -1 |
| InputFlow.ExtensionMatches | components/InputFlow.tsx:71-72 | the lower-cased suffix from the last dot is an extension exactly when the name ends with it, ignoring case |
| InputFlow.FileCheckAccepts | components/InputFlow.tsx:64-75 | a file is accepted exactly when it is at most 5 MiB and ends in .txt, .csv or .xlsx; size is checked first |
| InputFlow.RemoveAt | components/InputFlow.tsx:196-197 | `splice(index, 1)` removes exactly that element and keeps the rest in order |
| InputFlow.FindFirst | components/InputFlow.tsx:204 | `findIndex` finds the first equal title, or none exactly when there is none |
| InputFlow.ReplaceFirst | components/InputFlow.tsx:204-208 | only the first equal title is replaced; nothing changes when none matches |
| InputFlow.InputPageState.constructor | components/InputFlow.tsx:17-26 | the initial state: empty text, no error, input page, empty lists, three blank favourites |
| InputFlow.InputPageState.HandleTextChange | components/InputFlow.tsx:44-46 | the text is replaced and the error cleared |
| InputFlow.InputPageState.HandleTopDramaChange | components/InputFlow.tsx:52-57 | one favourite slot replaced, the error cleared |
| InputFlow.InputPageState.HandleFileSelect | components/InputFlow.tsx:59-85 | reading starts exactly for a present, accepted file; a refused file sets its error |
| InputFlow.InputPageState.FileLoaded | components/InputFlow.tsx:79-83 | the file's text replaces the input and clears the error |
| InputFlow.DecideGenerate | components/InputFlow.tsx:120-149 | parsing, the favourites check and the merge, in the source's order, yield exactly `Generate`'s outcome: `missing-top3` on a blank favourite, else the merged list |
| InputFlow.InputPageState.HandleGenerate | components/InputFlow.tsx:120-153 | on a blank favourite only the error is set; otherwise loading starts with the merged list scheduled |
| InputFlow.InputPageState.FinishLoading | components/InputFlow.tsx:168-179 | the scheduled list becomes the confirmed list on the confirmation page |
| InputFlow.InputPageState.HandleBack | components/InputFlow.tsx:189-193 | back to input with the parsed and uncertain lists emptied |
| InputFlow.InputPageState.HandleRemoveUncertain | components/InputFlow.tsx:195-199 | the uncertain entry at the index is removed |
| InputFlow.InputPageState.HandleUseSuggestion | components/InputFlow.tsx:201-210 | the first confirmed title equal to the entry's input becomes its suggestion, then the entry is removed |
| GenreMapping.Tagged | lib/genre-mapping.ts:21-112 | each table group pairs every key with its label |
| GenreMapping.AddSet | lib/genre-mapping.ts:119 | `Set.add` adds the label and nothing else |
| GenreMapping.AddAllProps | lib/genre-mapping.ts:119 | adding labels keeps them distinct, keeps the earlier ones as a prefix, and adds exactly the given ones |
| GenreMapping.HitsMembers | lib/genre-mapping.ts:123-127 | a keyword gives a label exactly when some table key with that label occurs in it |
| GenreMapping.KeywordHitsMembers | lib/genre-mapping.ts:122-128 | the keywords give a label exactly when some keyword contains a table key with that label |
| GenreMapping.AddKeywordHits | lib/genre-mapping.ts:123-127 | the inner loop adds one keyword's hits, in table order |
| GenreMapping.CollectKeywordHits | lib/genre-mapping.ts:122-128 | the nested loops add every keyword's hits, keyword by keyword |
| GenreMapping.LowerAll | lib/genre-mapping.ts:116 | the keywords and category names are lower-cased one by one |
| GenreMapping.ApplyCategoryRules | lib/genre-mapping.ts:131-143 | the category rules add their labels in rule order |
| GenreMapping.TopGenresWith | lib/genre-mapping.ts:114-164 | the body of `getTopGenres` returns the first two labels found |
| GenreMapping.GetTopGenres | lib/genre-mapping.ts:114-164 | `getTopGenres` with the keyword table |
| GenreMapping.CategoryLabelsMembers | lib/genre-mapping.ts:131-143 | which labels the category rules add: Sci-Fi or Fantasy for the sci-fi category depending on tech/space/alien keywords, Action, Thriller, Comedy |
| GenreMapping.ClassifyShape | lib/genre-mapping.ts:118-160 | at least one label is found and none twice |
| GenreMapping.ClassifyMembers | lib/genre-mapping.ts:118-160 | when the keywords or a category rule gave something, the labels found are exactly those; otherwise a single fallback label |
| GenreMapping.ClassifyKeywordsFirst | lib/genre-mapping.ts:118-143 | the keyword labels, in discovery order, come before any category label |
| GenreMapping.ClassifySliceOfLife | lib/genre-mapping.ts:146-150 | Slice of Life appears only alone, exactly when nothing else was found and a keyword mentions friend, neighbor or life |
| GenreMapping.TableLabels | lib/genre-mapping.ts:21-112 | the keyword table never gives Slice of Life, Comedy or Drama |
| GenreMapping.TopGenresShape | lib/genre-mapping.ts:153-163 | one or two labels, never the same twice |
| GenreMapping.DominantFromKeywords | lib/genre-mapping.ts:167-169 | when a keyword matches, the dominant genre is the first keyword label |
| GenreMapping.SliceOfLifeAlone | lib/genre-mapping.ts:146-163 | Slice of Life in the result means it is the whole result |
| GenreMapping.BareDramaFallbacks | lib/genre-mapping.ts:115-116 | no genres and no keywords give Drama; the lone category "Drama" gives Romance |
| VibeCalculator.Find | lib/vibe-calculator.ts:20 | the position of the genre's first count, or -1 when it has none |
| VibeCalculator.BumpLookup | lib/vibe-calculator.ts:20 | `set(g, get(g) + 1)` adds one to `g`'s count and leaves the others |
| VibeCalculator.TallyProps | lib/vibe-calculator.ts:14-23 | the counts have distinct genres, each genre's count is its number of labels, and they sum to the label total |
| VibeCalculator.RankPermutes | lib/vibe-calculator.ts:26-30 | the ranking is a permutation of the counts |
| VibeCalculator.RankSorted | lib/vibe-calculator.ts:26-30 | the ranking is by count, largest first |
| VibeCalculator.RankStable | lib/vibe-calculator.ts:26-30 | the sort is stable: for every count, the entries with that count keep their tally order |
| VibeCalculator.RankTies | lib/vibe-calculator.ts:26-30 | two entries with equal counts are ranked in their tally order |
| VibeCalculator.TallyOrder | lib/vibe-calculator.ts:14-23 | the tally lists genres in order of first appearance: an earlier key appears in the labels before the first occurrence of a later one |
| VibeCalculator.RankSum | lib/vibe-calculator.ts:26-30 | the ranking keeps the total |
| VibeCalculator.RankFirst | lib/vibe-calculator.ts:33 | the top genre is the first in counting order among those with the largest count |
| VibeCalculator.FirstMaxIsMax | lib/vibe-calculator.ts:33 | the reference scan finds the largest count, with every earlier entry strictly smaller |
| VibeCalculator.CountLabels | lib/vibe-calculator.ts:19-22 | the inner loop adds one drama's labels to the counts and the total |
| VibeCalculator.CountGenres | lib/vibe-calculator.ts:14-23 | the counting loop gives the tally of all labels and their number |
| VibeCalculator.CalculateVibe | lib/vibe-calculator.ts:12-96 | `calculateVibe` runs the count and then the cascade |
| VibeCalculator.AllLabelsBounds | lib/vibe-calculator.ts:17-22 | each drama adds one or two labels |
| VibeCalculator.VibeErrIffEmpty | lib/vibe-calculator.ts:33-46 | the vibe is undefined exactly for no dramas |
| VibeCalculator.HistoricalShareImpliesTop3 | lib/vibe-calculator.ts:45-46 | a Historical share above 35% already puts Historical in the top three |
| VibeCalculator.TimeRuleByRank | lib/vibe-calculator.ts:45-48 | so the time rule decides as it would without its share clause |
| VibeCalculator.HealingBeforeDetective | lib/vibe-calculator.ts:51-83 | healing is tested before detective: Medical and Thriller, one each, give "healing" |
| VibeCalculator.RomanticWithoutRomance | lib/vibe-calculator.ts:86-95 | the last rule gives "romantic" even with no romantic label: a tally of Fantasy labels alone gives "romantic" |
| VibeCalculator.WandererNeedsThreeDramas | lib/vibe-calculator.ts:40-42 | a wanderer needs six distinct genres, so at least three dramas |
| VibeCalculator.WandererNeedsSixGenres | lib/vibe-calculator.ts:40 | the wanderer rule needs six distinct genres |
| WrappedFlow.EpisodesOf | components/WrappedFlow.tsx:43 | every drama counts at least one episode |
| WrappedFlow.MinutesOf | components/WrappedFlow.tsx:46 | every drama counts at least one minute |
| WrappedFlow.RoundHoursNearest | components/WrappedFlow.tsx:47 | hours are rounded to the nearest hour, halves up |
| WrappedFlow.StatsAppend | components/WrappedFlow.tsx:43-46 | the totals add up drama by drama |
| WrappedFlow.StatsDefaults | components/WrappedFlow.tsx:43-47 | at least one episode and minute per drama; with no data, 16 episodes and 16 hours per drama |
| WrappedFlow.Flow.constructor | components/WrappedFlow.tsx:21 | the slideshow starts on slide 1 |
| WrappedFlow.Flow.HandleNext | components/WrappedFlow.tsx:23-25 | next adds exactly one |
| WrappedFlow.Flow.HandlePrev | components/WrappedFlow.tsx:27-33 | on slide 1 it calls `onBack` and stays; otherwise it steps back one |
| WrappedFlow.Flow.HandleReplay | components/WrappedFlow.tsx:35-37 | replay returns to slide 1 |
| WrappedFlow.Flow.HandleWheel | components/WrappedFlow.tsx:54-71 | the wheel listener's step on the state |
| WrappedFlow.Flow.CommitRender | components/WrappedFlow.tsx:50-75 | a changed slide re-registers the listener with `lastScrollTime = 0` |
| WrappedFlow.WheelBounds | components/WrappedFlow.tsx:56-70 | wheel navigation stays in slides 1 to 7, moves at most one, only in the scroll direction, never calls `onBack`, and does nothing for `deltaY == 0` |
| WrappedFlow.WheelCommitSettles | components/WrappedFlow.tsx:50-75 | after a wheel event and its commit, the listener belongs to the slide shown |
| WrappedFlow.WheelTimeOnlyOnNavigation | components/WrappedFlow.tsx:56-68 | `lastScrollTime` changes only on a navigation, to the event time |
| WrappedFlow.CooldownResetAsWritten | components/WrappedFlow.tsx:50-75 | as written, a second scroll less than 800 ms after a navigation is ignored by the same listener, but moves again once the re-render has re-registered the listener |
| WrappedFlow.CooldownKeptSeparates | components/WrappedFlow.tsx:51-56 | with the time kept across re-registration, any event within 800 ms of a navigation is ignored |
| DebugSummary.Summarize | app/debug/summary/page.tsx:32-52 | the first three dramas, the count, the episode and hour totals with the slideshow's defaults, the top genres, and the vibe |
| DebugSummary.AllLabelsFlatMap | app/debug/summary/page.tsx:41 | the page's `flatMap(getTopGenres)` is the list the vibe counts |
| DebugSummary.LabelMembers | app/debug/summary/page.tsx:41 | a genre is among the labels exactly when some drama has it |
| DebugSummary.GenreCountIsDramaCount | app/debug/summary/page.tsx:41-45 | a genre's count is the number of dramas having it |
| DebugSummary.GenreCountsSum | app/debug/summary/page.tsx:41-45 | the counts sum to the number of labels |
| DebugSummary.PermutedTally | app/debug/summary/page.tsx:46-47 | sorting the entries keeps each genre's count and the distinct keys |
| DebugSummary.TopGenreLabelsShape | app/debug/summary/page.tsx:46-49 | at most three genres, all different, each one some drama's top genre |
| DebugSummary.RankTopTies | app/debug/summary/page.tsx:46-49 | among the top three, genres with equal counts keep their order in the counts object |
| DebugSummary.TopGenreLabelsOrdered | app/debug/summary/page.tsx:41-49 | the genres come in non-increasing order of how many dramas have them, and genres had by equally many dramas come in order of first appearance in the flattened genre list |
| DebugSummary.TopGenreLabelsMaximal | app/debug/summary/page.tsx:46-49 | a genre left out is had by no more dramas than the third |

## Left out

- Network and asynchrony: `fetch`, the server-action boundary, `revalidate` caching and the
  image proxy. The search and the season lookup are functions passed in. `Promise.all` is
  modelled as "fails if any title fails"; which error wins when several throw is not modelled.
- The `try`/`catch` around the season lookup in `identifyDramas` is modelled as "a throwing
  lookup keeps the series poster". `getSeasonDetails` itself never throws.
- Logging (`console.log`, `console.error`) is left out.
- When React commits a changed slide and re-runs the wheel effect is not modelled: the caller
  places that step (`WrappedFlow.Flow.CommitRender`, the function `Commit`) between events.
  How soon after a navigation the re-registration happens is therefore not stated.
- Rendering, animation and all slides. `Slide6Vibe` is rendered without a `dramas` prop
  (components/WrappedFlow.tsx:127-131), a wiring fault that is presentational only.
- UI timing: the `setTimeout` loading steps and the demo "uncertain match" for lists longer
  than 15 titles. `FinishLoading` is the completion of the timer as a plain transition.
  `FileReader` is the split `HandleFileSelect`/`FileLoaded`. DOM auto-resize and drag-and-drop
  forwarding are left out.
- Floating point: the vibe shares are compared exactly, so ratios exactly at a threshold may
  decide differently from IEEE doubles. Hours use `(m + 30) / 60`, which equals `Math.round`
  on non-negative minutes.
- Unicode: lower-casing is ASCII only, so non-ASCII titles (e.g. Hangul) are not case-folded.
  Whitespace is a fixed set of code points covering JavaScript's `\s`. Lengths count code
  points, not UTF-16 units. `localeCompare` on dates is code-point order, which agrees with it
  on the digit-and-hyphen dates TMDB returns.
- `parseInt` of a season number is exact; precision beyond 2^53 is not modelled.
- `handleConfirm` only forwards state to the caller and is left out. `isValid` is
  `InputPageState.IsValid`.
- `InputFlow.InputPageState.HandleUseSuggestion`: requires an existing index. The source reads
  `uncertainMatches[index].input` and would throw on a missing one.
- The page's error-dismiss button and `showExamples` toggle are presentational.
- Enrichment (`enrichDramas`) is not part of this model. The debug page's fixed title list and
  its calls to `identifyDramas` and `enrichDramas` are left out; `DebugSummary.Summarize`
  starts from the enriched dramas.

## Findings

| source | as written | input that shows it | evidently intended | confidence | as-written member | corrected member |
|---|---|---|---|---|---|---|
| components/WrappedFlow.tsx:50-75 | `lastScrollTime` is a variable local to the effect, and the effect re-runs on every change of `currentSlide`, so each navigation installs a listener whose `lastScrollTime` is 0 again | on slide 1 at time t ≥ 800, a wheel event with `deltaY > 0` at t, then, after the re-render has re-registered the listener, a second one at any u with t < u < t + 800: the show moves to slide 3 | a navigation blocks further wheel navigation for 800 ms (keep the time in a ref across re-registration) | not executed | WrappedFlow.CooldownResetAsWritten | WrappedFlow.CooldownKeptSeparates |
