# Person-search backend: search, relevance filters and deep dive

This project models the search core of a person-search backend and proves
properties of it. The core covers four things:

- **`perform_search`** (`backend/search_logic.py`) asks DuckDuckGo for a query up
  to `retries` times. Without required terms it keeps every hit. Otherwise it
  keeps a hit only when some required term occurs in it word by word: every
  word of the term is searched as `\b<word>(?![a-z])`, case insensitively. A kept hit carries a match context, and a matched URL gets a
  text-fragment anchor. The function returns the first attempt's non-empty
  results.
- **`deep_dive_search`** (same file) builds twelve queries in five
  categories: eleven add a site, file-type or keyword qualifier to the base query,
  and the General category searches the bare name. It runs them on a thread
  pool. It files each task's findings
  under its category as the tasks complete, then de-duplicates every category
  by URL.
- **`test_search_logic`** (`backend/debug_search_v2.py`) tries the DuckDuckGo
  backends `api`, `html` and `lite` in turn and falls back to Google. It
  normalises hits into `{title, url, description, source}`. It keeps a hit as
  soon as one word of at least three characters of some term is found.
- **`perform_search`** (`backend/verify_search.py`) makes one call, without
  retries. Without required terms it keeps every title; otherwise it keeps the
  titles whose text contains every word of some term as `\b<word>\b`.

Text handling is modelled on ASCII:

- `str.split`, `str.strip` and `str.replace('"', '')`;
- the substring test;
- `re.search` with the two word patterns under `re.IGNORECASE`.

Module `TextMatch` holds this model. `Sequences` holds the order-preserving
filter and subsequence facts that every filter shares.

The search providers are parameters. For DuckDuckGo in `SearchLogic`,
`provider(query, k)` is the outcome of attempt `k`: it either raises or returns
a list of hits. In `VerifySearch`, `provider(query, max_results)` is the outcome
of its single call. For
`test_search_logic`, `ddg(query, backend)` and `google(query)` are the
outcomes. The thread pool of the deep dive is a parameter too: `order` is the
order in which the twelve tasks complete, a permutation of their indices.

In `perform_search` the code reads `combined_text`, which is never assigned,
and `match_found`, which is never assigned before line 80 reads it (see
Findings). `SearchLogic.Keep`, `SearchLogic.CheckResult`,
`SearchLogic.PerformSearch` and `DeepDive.DeepDiveSearch` model the evidently
intended code. `SearchLogic.AttemptAsWritten` and `SearchLogic.SearchAsWritten`
model the code as it stands.

## Model

| member | source | states |
|---|---|---|
| TextMatch.Split | backend/search_logic.py:47 | `term.split()`: every word is non-empty and free of whitespace; there are no words iff the term is all whitespace; a term that is one run of non-space characters is its own single word |
| TextMatch.SplitJoins | backend/search_logic.py:47 | the words, joined up again in order, are the term with its whitespace deleted |
| TextMatch.SplitAtSpace | backend/search_logic.py:47 | a whitespace character splits the term in two: the words are those of the part before it followed by those of the part after it |
| TextMatch.SplitRun | backend/search_logic.py:47 | a maximal run of non-space characters, with whitespace on both sides, is one word, in its place among the others |
| TextMatch.Strip | backend/search_logic.py:41 | `strip()` yields a string that neither starts nor ends with whitespace, no longer than its input, and leaves an already stripped string unchanged |
| TextMatch.StripRemovesOuterSpace | backend/search_logic.py:41 | what `strip()` keeps is a contiguous slice of the input; what it drops on either side is whitespace |
| TextMatch.RemoveQuotes | backend/search_logic.py:41 | `replace('"', '')` is the string's non-quote characters in their order: it equals the order-preserving filter that keeps every character except `"`, is a subsequence of the string, has no double quote, keeps every other character with its multiplicity, and leaves a quote-free string unchanged |
| TextMatch.StripKeepsOrder | backend/search_logic.py:41 | what `strip()` keeps is a subsequence of its input |
| TextMatch.StripKeepsCharacters | backend/search_logic.py:41 | every non-space character survives `strip()` with its multiplicity |
| TextMatch.CleanTerm | backend/search_logic.py:41 | a cleaned term has no double quote and no surrounding whitespace |
| TextMatch.CleanTermIsSlice | backend/search_logic.py:41 | a cleaned term is one contiguous slice of the quote-free term, with only whitespace cut off on either side, so whitespace inside the term survives |
| TextMatch.CleanTermContent | backend/search_logic.py:41 | a cleaned term is a subsequence of the term, and every character that is neither a double quote nor whitespace survives with its multiplicity |
| TextMatch.CleanTerms | backend/search_logic.py:41 | the cleaned list is no longer than the terms and quote-free; it is empty iff every required term is the empty string |
| TextMatch.CleanTermsIsMap | backend/search_logic.py:41 | the cleaned list is the cleaned form of each non-empty term, in the terms' order |
| TextMatch.CleanTermsFrom | backend/search_logic.py:41 | every cleaned term is the cleaned form of some non-empty required term |
| TextMatch.CleanTermsAppend | backend/search_logic.py:41 | cleaning works term by term: the cleaned list of two lists of terms, one after the other, is their cleaned lists one after the other |
| TextMatch.CleanTermsOne | backend/search_logic.py:41 | a single term is dropped when it is empty and cleaned otherwise |
| TextMatch.CleanTermsMember | backend/search_logic.py:41 | every non-empty required term survives into the cleaned list, as its cleaned form |
| TextMatch.CleanBlankTerm | backend/verify_search.py:33 | a term made only of double quotes and whitespace cleans to the empty string |
| TextMatch.Contains | backend/search_logic.py:74 | `sub in s` holds iff `sub` occurs at some position of `s` |
| TextMatch.Search | backend/search_logic.py:61-63 | `re.search` succeeds iff there is a position with a word boundary before it, the word there up to ASCII case, and the pattern's end condition after it |
| TextMatch.FindAllWords | backend/search_logic.py:52-66 | the word loop reports all words found iff every word is found; otherwise the missing word it reports is the first word not found |
| TextMatch.CombinedText | backend/debug_search_v2.py:64 | the searched text is the title, a space, the body, a space and the URL, each part at its place and nothing else |
| SearchLogic.FirstMatchFrom | backend/search_logic.py:45-76 | the term loop stops at the first cleaned term that has words and whose words are all found; every earlier term fails |
| SearchLogic.WithFragment | backend/search_logic.py:74-75 | a matched URL always carries `#:~:text=`; it is extended by the first word only when it had no anchor |
| SearchLogic.CheckResult | backend/search_logic.py:32-92 | the per-hit body decides exactly as `Keep`: general result without terms, otherwise kept iff a term fully matches |
| SearchLogic.FilterAttempt | backend/search_logic.py:25-92 | one attempt's `results` is the filter of its hits in hit order |
| SearchLogic.FilteredMembers | backend/search_logic.py:32-92 | a finding is in an attempt's `results` iff `Keep` makes it of one of that attempt's hits |
| SearchLogic.SearchResultsKept | backend/search_logic.py:19-104 | every finding `perform_search` returns is what `Keep` makes of a hit that one of the first `retries` attempts received |
| SearchLogic.PerformSearch | backend/search_logic.py:13-104 | returns the first attempt's non-empty results, or `[]` after `retries` attempts |
| SearchLogic.KeepIff | backend/search_logic.py:39-85 | a hit is kept iff no terms were required or some cleaned term has all its words found |
| SearchLogic.KeepPreservesHit | backend/search_logic.py:87-92 | a kept hit keeps its title and description |
| SearchLogic.MatchedHitShape | backend/search_logic.py:68-76 | a hit kept for a term names the first matching term in its context, and its URL carries an anchor, added at that term's first word only if none was there |
| SearchLogic.FragmentAppendedAtMostOnce | backend/search_logic.py:74-75 | anchoring an anchored URL again changes nothing |
| SearchLogic.NoTermsKeepsEveryHit | backend/search_logic.py:83-92 | without required terms every hit is kept, in order and unchanged, as a "General Search Result" |
| SearchLogic.FilteredKeepsOrder | backend/search_logic.py:32-92 | the kept results' titles are an order-preserving subsequence of the hits' titles |
| SearchLogic.LetterLookaheadExamples | backend/search_logic.py:56-61 | "modi" is found in "modi123" but not in "modification" |
| SearchLogic.AttemptAsWritten | backend/search_logic.py:39-82 | as written, an attempt with required terms either raises on its first hit or returns nothing |
| SearchLogic.SearchAsWritten | backend/search_logic.py:13-104 | as written, `perform_search` without required terms returns what the intended code returns |
| SearchLogic.AsWrittenKeepsNothing | backend/search_logic.py:19-104 | as written, `perform_search` with any required term returns `[]`, whatever the provider returns |
| SearchLogic.AsWrittenDropsAda | backend/search_logic.py:63 | for the term "Ada" and one hit titled "Ada", the code as written returns `[]` and the intended code keeps the hit, anchored at "Ada" |
| DeepDive.BaseQuery | backend/search_logic.py:112-114 | the base query is the name, followed by a space and the extra info iff extra info was given |
| DeepDive.Narrowed | backend/search_logic.py:121-137 | every narrowed query starts with the base query and a space |
| DeepDive.QueryTasks | backend/search_logic.py:157-160 | the deep dive runs twelve tasks |
| DeepDive.FlattenTable | backend/search_logic.py:158-160 | the nested loops produce the tasks of all categories in table order |
| DeepDive.PlanShape | backend/search_logic.py:119-160 | tasks 0-4 are Social Profiles, 5-7 Documents, 8-9 News and 10 Mentions, all narrowing the base query; task 11 is the General search for the bare name |
| DeepDive.RequiredTerms | backend/search_logic.py:148-150 | the required terms are the name, plus the extra info iff it was given |
| DeepDive.Aggregate | backend/search_logic.py:162-183 | every category has an entry, holding its tasks' findings in completion order |
| DeepDive.GatheredExactly | backend/search_logic.py:175-179 | a finding is filed under a category iff some task of that category returned it |
| DeepDive.UniqueByUrl | backend/search_logic.py:187-193 | the de-duplication loop keeps the first item for each URL |
| DeepDive.DedupBuckets | backend/search_logic.py:186-193 | every category is replaced by its de-duplicated list, and the categories stay the same |
| DeepDive.DedupKeepsEveryUrl | backend/search_logic.py:186-193 | de-duplication keeps every URL |
| DeepDive.DedupDistinctUrls | backend/search_logic.py:186-193 | after de-duplication no two items share a URL |
| DeepDive.DedupKeepsOrder | backend/search_logic.py:186-193 | the de-duplicated list is an order-preserving subsequence of the list |
| DeepDive.DedupKeepsFirst | backend/search_logic.py:189-192 | the first item with a given URL is kept |
| DeepDive.RunTasks | backend/search_logic.py:145-177 | running the tasks in completion order yields, for each task, its category and `perform_search` on its query with the required terms |
| DeepDive.DeepDiveSearch | backend/search_logic.py:106-195 | the result has the five categories; each holds its tasks' findings in completion order, de-duplicated by URL |
| DeepDive.DeepDiveShape | backend/search_logic.py:172-193 | each category's list has distinct URLs, is an order-preserving subsequence of what its tasks returned, keeps every URL they returned, and holds only their findings |
| DeepDive.DeepDiveAsWrittenFindsNothing | backend/search_logic.py:145-152 | with `perform_search` as written, every category of the deep dive is empty |
| DebugSearchV2.AppendDdg | backend/debug_search_v2.py:23-29 | the append loop adds the backend's normalised hits after what was there |
| DebugSearchV2.AppendGoogle | backend/debug_search_v2.py:44-50 | the append loop adds Google's normalised hits after what was there |
| DebugSearchV2.FetchRawResults | backend/debug_search_v2.py:12-54 | the raw results are those of the first backend, in the order api, html, lite, that returned hits; failing that, Google's |
| DebugSearchV2.MatchWords | backend/debug_search_v2.py:76-81 | `matched_words` is every word of at least three characters that is found, in order; the loop does not stop early |
| DebugSearchV2.MatchFound | backend/debug_search_v2.py:60-87 | `match_found` is set iff terms were given and some cleaned term has a matched word |
| DebugSearchV2.FilterRaw | backend/debug_search_v2.py:58-93 | `processed_results` is the raw results that match, in order |
| DebugSearchV2.TestSearchLogic | backend/debug_search_v2.py:10-95 | the processed results are the fetched raw results, filtered |
| DebugSearchV2.SourcesDistinct | backend/debug_search_v2.py:28-49 | the source labels `DDG-api`, `DDG-html`, `DDG-lite` and `Google` are pairwise distinct |
| DebugSearchV2.FirstBackendWins | backend/debug_search_v2.py:16-30 | the first backend that returned hits supplies all raw results, one per hit, labelled with its name; later backends and Google do not matter |
| DebugSearchV2.GoogleOnlyAsFallback | backend/debug_search_v2.py:36-50 | a Google result appears iff no backend returned hits and Google did; with no backend hits the raw results are Google's |
| DebugSearchV2.SingleSource | backend/debug_search_v2.py:12-54 | all raw results of a run carry the same source |
| DebugSearchV2.MatchedWordsIff | backend/debug_search_v2.py:76-85 | a term has a matched word iff one of its words is at least three long and found |
| DebugSearchV2.MatchedWordsKeepOrder | backend/debug_search_v2.py:76-81 | the matched words are a subsequence of the term's words, each at least three long and found |
| DebugSearchV2.TermHitsIff | backend/debug_search_v2.py:73-85 | a term hits iff some word of it matches |
| DebugSearchV2.SomeTermHitsIff | backend/debug_search_v2.py:72-87 | the term loop finds a hit iff some remaining cleaned term hits |
| DebugSearchV2.KeepRawIff | backend/debug_search_v2.py:68-87 | a raw result is kept iff some cleaned term has a word of at least three characters found in its text |
| DebugSearchV2.ShortWordsNeverMatch | backend/debug_search_v2.py:78 | terms whose words are all shorter than three characters keep nothing |
| DebugSearchV2.ProcessedIsFilter | backend/debug_search_v2.py:89-93 | exactly the matching raw results are kept, in their order |
| DebugSearchV2.NoTermsKeepNothing | backend/debug_search_v2.py:68-69 | with no required terms, or only empty ones, nothing is kept |
| VerifySearch.FirstFullMatchFrom | backend/verify_search.py:36-51 | the term loop stops at the first cleaned term whose words are all found with `\b` on both sides; every earlier term fails |
| VerifySearch.CheckCandidate | backend/verify_search.py:30-57 | the per-hit body reports that first term and keeps the title iff there were no terms or such a term exists |
| VerifySearch.PerformSearch | backend/verify_search.py:11-61 | the provider's exception propagates; otherwise the result is the titles of the kept hits in order |
| VerifySearch.KeepsTitleIff | backend/verify_search.py:32-57 | a title is kept iff no terms were required or some cleaned term has all its words found |
| VerifySearch.KeptTitlesKeepOrder | backend/verify_search.py:20-59 | the kept titles are an order-preserving subsequence of the hits' titles |
| VerifySearch.KeptTitlesIsMap | backend/verify_search.py:20-59 | the kept titles are the titles of the hits that pass the check, in hit order |
| VerifySearch.KeptTitlesMembers | backend/verify_search.py:20-59 | a title is in the result iff some hit with that title passes the check |
| VerifySearch.KeptTitlesAll | backend/verify_search.py:59 | when every hit is kept, the result is every hit's title |
| VerifySearch.NoTermsKeepsEveryTitle | backend/verify_search.py:32-59 | without required terms every title is kept |
| VerifySearch.BlankTermKeepsEveryTitle | backend/verify_search.py:33-48 | a non-empty term that cleans to nothing matches vacuously, so every title is kept |
| VerifySearch.QuotedSpacesKeepEveryTitle | backend/verify_search.py:33-48 | for instance the term `"  "` keeps every title |
| VerifySearch.EmptyTermsKeepNothing | backend/verify_search.py:32-57 | required terms that are all empty strings are dropped by cleaning, so nothing is kept |
| VerifySearch.DigitSuffixRejected | backend/verify_search.py:42-43 | `\bmodi\b` is not found in "modi123", which `\bmodi(?![a-z])` accepts |
| VerifySearch.WordBoundedIsStricter | backend/verify_search.py:42 | for a word ending in a word character, wherever `\b<word>\b` matches, `\b<word>(?![a-z])` matches too |

## Left out

- Network access is left out. `DDGS().text`, `googlesearch.search` and their result generators are parameters. A provider either raises or returns a complete list; a generator that fails half-way through iteration is not modelled.
- The `max_results` and `num_results` caps (5, and 4 in the deep dive) are not modelled. The provider decides how many hits it returns.
- `time.sleep` with random jitter and exponential backoff between attempts is left out. It affects timing only.
- Logging and `print` are left out. So are the module-level test calls of `backend/verify_search.py` and the `__main__` block of `backend/debug_search_v2.py`.
- The thread pool (`ThreadPoolExecutor`, `max_workers=3`, `as_completed`) is left out. Its only visible effect is the completion order, which is a parameter.
- The `except` branches of `execute_query` and of the `as_completed` loop are not modelled. `perform_search` catches every exception itself, so they cannot be reached.
- TextMatch.Split: its own contract gives the shape of the words only. That they are the maximal runs, in order, is stated by TextMatch.SplitJoins, TextMatch.SplitAtSpace and TextMatch.SplitRun.
- TextMatch.CleanTerm: its own contract gives quote-freedom and the stripped ends only. That a cleaned term is the quote-free term with only its outer whitespace cut off is stated by TextMatch.CleanTermIsSlice; TextMatch.CleanTermContent adds order and character counts.
- DeepDive.DedupBuckets: visits the categories in an unspecified order instead of dictionary order. Each category is handled independently, so the result is the same.
- The category keys of `structured_results` are the datatype `DeepDive.Category`. `DeepDive.Label` gives their dictionary names.
- Regular expressions, `str.split`, `str.strip` and `re.IGNORECASE` are modelled on ASCII only. Unicode word characters, Unicode whitespace and non-ASCII case folding are not. `re.escape` needs no model, because words are compared character by character.
- `test_search_logic` returns nothing and prints the number of kept results. DebugSearchV2.TestSearchLogic returns the kept list itself.
- `perform_search` in `backend/verify_search.py` returns nothing and prints the number of kept titles. VerifySearch.PerformSearch returns the kept titles, or `Aborted` when the provider raised.
- `main.py`, the API layer and the frontend are not part of this model.

## Findings

| source | as written | input that shows it | evidently intended | confidence | as-written member | corrected member |
|---|---|---|---|---|---|---|
| backend/search_logic.py:63 | With required terms, the first hit of every attempt that received hits reads `combined_text`, which is never assigned (a NameError); the `except` at line 100 then ends the attempt, so later hits are never examined. When no cleaned term has a word, it instead reads `match_found` (line 80), which is never initialised. Either way the retry loop swallows the error, so `perform_search`, and with it every deep-dive category, returns `[]` | required term "Ada"; the provider returns one hit titled "Ada" with URL "ada.io" | `combined_text = f"{title} {body} {url}"` and `match_found = False` for each hit, as `backend/debug_search_v2.py` and `backend/verify_search.py` do. The hit is then kept, with URL `ada.io#:~:text=Ada` and context `Matched Name 'Ada'` | not executed | SearchLogic.AsWrittenDropsAda | SearchLogic.CheckResult |
