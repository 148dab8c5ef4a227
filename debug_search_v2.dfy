/**
 * `test_search_logic` of the diagnostic script: fetch hits for a query from the
 * DuckDuckGo backends `api`, `html` and `lite` in turn, stopping at the first
 * one that returns anything, fall back to Google only when none did, normalise
 * every hit into `{title, url, description, source}`, and keep a hit as soon as
 * some required term has a single word of at least three characters that is
 * found as `\b<word>(?![a-z])`, case-insensitively.
 */
module DebugSearchV2 {
  import opened Wrappers
  import opened Sequences
  import opened TextMatch
  import opened Providers

  // ---------------------------------------------------------------------------
  // Fetching: the DuckDuckGo backends, then Google
  // ---------------------------------------------------------------------------

  datatype DdgBackend = Api | Html | Lite

  /** The `backend=` argument, in the order the backends are tried. */
  function BackendName(b: DdgBackend): string {
    match b
    case Api => "api"
    case Html => "html"
    case Lite => "lite"
  }

  function BackendAt(i: nat): (b: DdgBackend)
    requires i < 3
  {
    if i == 0 then Api else if i == 1 then Html else Lite
  }

  /** `f"DDG-{backend}"` */
  function DdgSource(b: DdgBackend): string {
    "DDG-" + BackendName(b)
  }

  const GoogleSource: string := "Google"

  /** One entry of `raw_results`. */
  datatype RawResult = RawResult(title: string, url: string, description: string, source: string)

  /** A DuckDuckGo hit as `raw_results` stores it: missing keys become `''`. */
  function FromDdg(hit: DdgHit, b: DdgBackend): RawResult {
    RawResult(OrEmpty(hit.title), OrEmpty(hit.href), OrEmpty(hit.body), DdgSource(b))
  }

  function FromGoogle(hit: GoogleHit): RawResult {
    RawResult(hit.title, hit.url, hit.description, GoogleSource)
  }

  /** What one DuckDuckGo backend contributes: its hits, normalised; nothing when the call raised. */
  function DdgAttempt(o: Outcome<DdgHit>, b: DdgBackend): (raw: seq<RawResult>)
    ensures o.Raised? ==> raw == []
    ensures o.Returned? ==> |raw| == |o.hits| && forall k :: 0 <= k < |raw| ==> raw[k] == FromDdg(o.hits[k], b)
  {
    match o
    case Raised => []
    case Returned(hits) => seq(|hits|, k requires 0 <= k < |hits| => FromDdg(hits[k], b))
  }

  /** What the Google fallback contributes. */
  function GoogleAttempt(o: Outcome<GoogleHit>): (raw: seq<RawResult>)
    ensures o.Raised? ==> raw == []
    ensures o.Returned? ==> |raw| == |o.hits| && forall k :: 0 <= k < |raw| ==> raw[k] == FromGoogle(o.hits[k])
  {
    match o
    case Raised => []
    case Returned(hits) => seq(|hits|, k requires 0 <= k < |hits| => FromGoogle(hits[k]))
  }

  /** What the three backends contribute, in the order they are tried. */
  function DdgAttempts(ddg: (string, DdgBackend) -> Outcome<DdgHit>, query: string): (rs: seq<seq<RawResult>>)
    ensures |rs| == 3
    ensures forall i :: 0 <= i < 3 ==> rs[i] == DdgAttempt(ddg(query, BackendAt(i)), BackendAt(i))
  {
    seq(3, i requires 0 <= i < 3 => DdgAttempt(ddg(query, BackendAt(i)), BackendAt(i)))
  }

  /** `raw_results` after fetching: the first backend with hits, else whatever Google gives. */
  function RawResults(ddg: (string, DdgBackend) -> Outcome<DdgHit>, google: string -> Outcome<GoogleHit>,
                      query: string): seq<RawResult>
  {
    var fromDdg := FirstNonEmpty(DdgAttempts(ddg, query));
    if fromDdg != [] then fromDdg else GoogleAttempt(google(query))
  }

  /** The `for r in results` loop of a backend that returned hits. */
  method AppendDdg(raw: seq<RawResult>, hits: seq<DdgHit>, b: DdgBackend) returns (raw': seq<RawResult>)
    ensures raw' == raw + DdgAttempt(Returned(hits), b)
  {
    raw' := raw;
    for k := 0 to |hits|
      invariant |raw'| == |raw| + k
      invariant raw'[..|raw|] == raw
      invariant forall j :: 0 <= j < k ==> raw'[|raw| + j] == FromDdg(hits[j], b)
    {
      raw' := raw' + [FromDdg(hits[k], b)];
    }
  }

  /** The `for r in results` loop of the Google fallback. */
  method AppendGoogle(raw: seq<RawResult>, hits: seq<GoogleHit>) returns (raw': seq<RawResult>)
    ensures raw' == raw + GoogleAttempt(Returned(hits))
  {
    raw' := raw;
    for k := 0 to |hits|
      invariant |raw'| == |raw| + k
      invariant raw'[..|raw|] == raw
      invariant forall j :: 0 <= j < k ==> raw'[|raw| + j] == FromGoogle(hits[j])
    {
      raw' := raw' + [FromGoogle(hits[k])];
    }
  }

  /**
   * Steps 1 and 2 of `test_search_logic`; `ddg(query, b)` is what
   * `DDGS().text(query, max_results=5, backend=b)` does and `google(query)` what
   * `gsearch(query, num_results=5, advanced=True)` does.
   */
  method FetchRawResults(ddg: (string, DdgBackend) -> Outcome<DdgHit>, google: string -> Outcome<GoogleHit>,
                         query: string) returns (raw: seq<RawResult>)
    ensures raw == RawResults(ddg, google, query)
  {
    ghost var rs := DdgAttempts(ddg, query);
    raw := [];
    var i := 0;
    while i < 3
      invariant i <= 3 && raw == []
      invariant FirstNonEmpty(rs) == FirstNonEmpty(rs[i..])
    {
      FirstNonEmptyStep(rs, i);
      var backend := BackendAt(i);
      match ddg(query, backend) {
        case Raised =>
          // logged as a failed backend
        case Returned(hits) =>
          if hits != [] {
            raw := AppendDdg(raw, hits, backend);
            break;
          }
      }
      i := i + 1;
    }
    if raw == [] {
      assert rs[i..] == [];
      match google(query) {
        case Raised =>
        case Returned(hits) =>
          raw := AppendGoogle(raw, hits);
      }
    }
  }

  // ---------------------------------------------------------------------------
  // Filtering: any single word of length three or more
  // ---------------------------------------------------------------------------

  /** A word counts only from three characters on, and then only when `\b<word>(?![a-z])` is found. */
  predicate WordMatches(text: string, word: string) {
    |word| >= 3 && Search(NotFollowedByLetter, text, word)
  }

  function MatchesIn(text: string): string -> bool {
    word => WordMatches(text, word)
  }

  /** `matched_words` for one term: its words that match, in order. */
  function MatchedWords(text: string, words: seq<string>): seq<string> {
    Filter(words, MatchesIn(text))
  }

  /** The `for word in sub_words` loop: it does not stop at the first matching word. */
  method MatchWords(text: string, words: seq<string>) returns (matched: seq<string>)
    ensures matched == MatchedWords(text, words)
  {
    matched := [];
    for k := 0 to |words|
      invariant matched == Filter(words[..k], MatchesIn(text))
    {
      FilterStep(words, MatchesIn(text), k);
      var word := words[k];
      if |word| < 3 {
        continue;
      }
      if Search(NotFollowedByLetter, text, word) {
        matched := matched + [word];
      }
    }
    assert words[..|words|] == words;
  }

  /** A term hits the text when at least one of its words matches. */
  predicate TermHits(text: string, term: string) {
    MatchedWords(text, Split(term)) != []
  }

  function ResultText(r: RawResult): string {
    CombinedText(r.title, r.description, r.url)
  }

  /** `match_found` for one raw result. */
  predicate KeepRaw(r: RawResult, requiredTerms: seq<string>) {
    requiredTerms != [] && SomeTermHitsFrom(ResultText(r), CleanTerms(requiredTerms), 0)
  }

  /** Some term of `clean` from position `i` on hits `text`. */
  predicate SomeTermHitsFrom(text: string, clean: seq<string>, i: nat)
    decreases |clean| - i
  {
    i < |clean| && (TermHits(text, clean[i]) || SomeTermHitsFrom(text, clean, i + 1))
  }

  /** The body of the `for r in raw_results` loop: computes `match_found`. */
  method MatchFound(r: RawResult, requiredTerms: seq<string>) returns (matchFound: bool)
    ensures matchFound == KeepRaw(r, requiredTerms)
  {
    var combinedText := CombinedText(r.title, r.description, r.url);
    matchFound := false;
    if requiredTerms != [] {
      var cleanTerms := CleanTerms(requiredTerms);
      for i := 0 to |cleanTerms|
        invariant !matchFound
        invariant SomeTermHitsFrom(combinedText, cleanTerms, 0) == SomeTermHitsFrom(combinedText, cleanTerms, i)
      {
        var subWords := Split(cleanTerms[i]);
        if subWords == [] {
          continue;
        }
        var matchedWords := MatchWords(combinedText, subWords);
        if |matchedWords| > 0 {
          matchFound := true;
          break;
        }
      }
    }
  }

  function KeptBy(requiredTerms: seq<string>): RawResult -> bool {
    r => KeepRaw(r, requiredTerms)
  }

  /** `processed_results`: the raw results that are kept, in order. */
  function Processed(raw: seq<RawResult>, requiredTerms: seq<string>): seq<RawResult> {
    Filter(raw, KeptBy(requiredTerms))
  }

  /** Step 3 of `test_search_logic`. */
  method FilterRaw(raw: seq<RawResult>, requiredTerms: seq<string>) returns (processed: seq<RawResult>)
    ensures processed == Processed(raw, requiredTerms)
  {
    processed := [];
    for i := 0 to |raw|
      invariant processed == Filter(raw[..i], KeptBy(requiredTerms))
    {
      FilterStep(raw, KeptBy(requiredTerms), i);
      var matchFound := MatchFound(raw[i], requiredTerms);
      if matchFound {
        processed := processed + [raw[i]];
      }
    }
    assert raw[..|raw|] == raw;
  }

  /**
   * `test_search_logic(query, required_terms)`: the script prints the size of
   * `processed_results`; here the list itself is returned.
   */
  method TestSearchLogic(ddg: (string, DdgBackend) -> Outcome<DdgHit>, google: string -> Outcome<GoogleHit>,
                         query: string, requiredTerms: seq<string>) returns (processed: seq<RawResult>)
    ensures processed == Processed(RawResults(ddg, google, query), requiredTerms)
  {
    var raw := FetchRawResults(ddg, google, query);
    processed := FilterRaw(raw, requiredTerms);
  }

  // ---------------------------------------------------------------------------
  // Properties of fetching
  // ---------------------------------------------------------------------------

  /** A backend contributes hits exactly when its call returned a non-empty list. */
  predicate Found<T>(o: Outcome<T>) {
    o.Returned? && o.hits != []
  }

  /** The source labels tell the four providers apart. */
  lemma SourcesDistinct(b: DdgBackend, c: DdgBackend)
    ensures DdgSource(b) != GoogleSource
    ensures DdgSource(b) == DdgSource(c) <==> b == c
  {
    assert DdgSource(b)[0] == 'D' && GoogleSource[0] == 'G';
    assert DdgSource(b)[4] == BackendName(b)[0];
    assert DdgSource(c)[4] == BackendName(c)[0];
  }

  /**
   * The first backend (in the order api, html, lite) whose call returned hits
   * supplies every raw result, one per hit, and neither the later backends nor
   * Google are consulted.
   */
  lemma {:induction false} FirstBackendWins(ddg: (string, DdgBackend) -> Outcome<DdgHit>,
                                            google: string -> Outcome<GoogleHit>, query: string, i: nat)
    requires i < 3 && Found(ddg(query, BackendAt(i)))
    requires forall j :: 0 <= j < i ==> !Found(ddg(query, BackendAt(j)))
    ensures RawResults(ddg, google, query) == DdgAttempt(ddg(query, BackendAt(i)), BackendAt(i))
    ensures |RawResults(ddg, google, query)| == |ddg(query, BackendAt(i)).hits|
    ensures forall r :: r in RawResults(ddg, google, query) ==> r.source == DdgSource(BackendAt(i))
  {
    var rs := DdgAttempts(ddg, query);
    var k := 0;
    while k < i
      invariant k <= i && FirstNonEmpty(rs) == FirstNonEmpty(rs[k..])
    {
      FirstNonEmptyStep(rs, k);
      k := k + 1;
    }
    FirstNonEmptyStep(rs, i);
  }

  /** Google is asked only when every DuckDuckGo backend raised or returned nothing. */
  lemma GoogleOnlyAsFallback(ddg: (string, DdgBackend) -> Outcome<DdgHit>, google: string -> Outcome<GoogleHit>,
                             query: string)
    ensures (forall i :: 0 <= i < 3 ==> !Found(ddg(query, BackendAt(i)))) ==>
              RawResults(ddg, google, query) == GoogleAttempt(google(query))
    ensures (exists r :: r in RawResults(ddg, google, query) && r.source == GoogleSource) <==>
              (forall i :: 0 <= i < 3 ==> !Found(ddg(query, BackendAt(i)))) && Found(google(query))
  {
    var rs := DdgAttempts(ddg, query);
    FirstNonEmptyIsFirst(rs);
    var raw := RawResults(ddg, google, query);
    if FirstNonEmpty(rs) != [] {
      var k :| 0 <= k < 3 && FirstNonEmpty(rs) == rs[k] && forall j :: 0 <= j < k ==> rs[j] == [];
      SourcesDistinct(BackendAt(k), BackendAt(k));
      assert forall r :: r in raw ==> r.source != GoogleSource;
    } else if Found(google(query)) {
      assert raw[0] in raw;
    }
  }

  /** Every raw result of one run comes from the same provider. */
  lemma SingleSource(ddg: (string, DdgBackend) -> Outcome<DdgHit>, google: string -> Outcome<GoogleHit>,
                     query: string)
    ensures forall r, s :: r in RawResults(ddg, google, query) && s in RawResults(ddg, google, query) ==>
              r.source == s.source
  {
    var rs := DdgAttempts(ddg, query);
    FirstNonEmptyIsFirst(rs);
    if FirstNonEmpty(rs) != [] {
      var k :| 0 <= k < 3 && FirstNonEmpty(rs) == rs[k] && forall j :: 0 <= j < k ==> rs[j] == [];
      assert forall r: RawResult :: r in rs[k] ==> r.source == DdgSource(BackendAt(k));
    }
  }

  // ---------------------------------------------------------------------------
  // Properties of filtering
  // ---------------------------------------------------------------------------

  /** A term hits the text iff one of its words is at least three long and found. */
  lemma MatchedWordsIff(text: string, words: seq<string>)
    ensures MatchedWords(text, words) != [] <==> exists k :: 0 <= k < |words| && WordMatches(text, words[k])
  {
    var matched := MatchedWords(text, words);
    if matched != [] {
      FilterMembers(words, MatchesIn(text), matched[0]);
    } else if k :| 0 <= k < |words| && WordMatches(text, words[k]) {
      FilterMembers(words, MatchesIn(text), words[k]);
    }
  }

  /** `matched_words` lists words of the term, in the term's order. */
  lemma MatchedWordsKeepOrder(text: string, words: seq<string>)
    ensures IsSubsequence(MatchedWords(text, words), words)
    ensures forall w :: w in MatchedWords(text, words) ==> |w| >= 3 && Search(NotFollowedByLetter, text, w)
  {
    FilterKeepsOrder(words, MatchesIn(text));
  }

  /** Some word of `term`, as `str.split()` cuts it, is at least three long and found in `text`. */
  predicate HasMatchingWord(text: string, term: string) {
    var words := Split(term);
    exists k :: 0 <= k < |words| && WordMatches(text, words[k])
  }

  lemma TermHitsIff(text: string, term: string)
    ensures TermHits(text, term) <==> HasMatchingWord(text, term)
  {
    MatchedWordsIff(text, Split(term));
  }

  /** The scan over the cleaned terms finds a hit iff some remaining term hits. */
  lemma {:induction false} SomeTermHitsIff(text: string, clean: seq<string>, i: nat)
    ensures SomeTermHitsFrom(text, clean, i) <==> exists j :: i <= j < |clean| && TermHits(text, clean[j])
    decreases |clean| - i
  {
    if i < |clean| {
      SomeTermHitsIff(text, clean, i + 1);
    }
  }

  /**
   * A raw result is kept iff terms were given and some cleaned term has a word
   * of at least three characters that is found in `"{title} {description} {url}"`.
   */
  lemma KeepRawIff(r: RawResult, requiredTerms: seq<string>)
    ensures KeepRaw(r, requiredTerms) <==>
              exists t :: t in CleanTerms(requiredTerms) && HasMatchingWord(ResultText(r), t)
  {
    var clean, text := CleanTerms(requiredTerms), ResultText(r);
    if requiredTerms == [] {
      assert clean == [];
    } else {
      SomeTermHitsIff(text, clean, 0);
      if t :| t in clean && HasMatchingWord(text, t) {
        var j :| 0 <= j < |clean| && clean[j] == t;
        TermHitsIff(text, t);
      }
      if KeepRaw(r, requiredTerms) {
        var j :| 0 <= j < |clean| && TermHits(text, clean[j]);
        TermHitsIff(text, clean[j]);
      }
    }
  }

  /** Terms whose words are all shorter than three characters keep nothing. */
  lemma ShortWordsNeverMatch(r: RawResult, requiredTerms: seq<string>)
    requires forall t, w :: t in CleanTerms(requiredTerms) && w in Split(t) ==> |w| < 3
    ensures !KeepRaw(r, requiredTerms)
  {
    KeepRawIff(r, requiredTerms);
    if t :| t in CleanTerms(requiredTerms) && HasMatchingWord(ResultText(r), t) {
      var k :| 0 <= k < |Split(t)| && WordMatches(ResultText(r), Split(t)[k]);
      assert Split(t)[k] in Split(t);
    }
  }

  /** Exactly the raw results that satisfy `KeepRaw` are kept, in their order. */
  lemma ProcessedIsFilter(raw: seq<RawResult>, requiredTerms: seq<string>)
    ensures forall x :: x in Processed(raw, requiredTerms) <==> x in raw && KeepRaw(x, requiredTerms)
    ensures IsSubsequence(Processed(raw, requiredTerms), raw)
  {
    forall x | true
      ensures x in Processed(raw, requiredTerms) <==> x in raw && KeepRaw(x, requiredTerms)
    {
      FilterMembers(raw, KeptBy(requiredTerms), x);
    }
    FilterKeepsOrder(raw, KeptBy(requiredTerms));
  }

  /**
   * Unlike `perform_search`, no required terms (or only empty ones) keeps
   * nothing: `match_found` is never set.
   */
  lemma NoTermsKeepNothing(raw: seq<RawResult>, requiredTerms: seq<string>)
    requires forall i :: 0 <= i < |requiredTerms| ==> requiredTerms[i] == []
    ensures Processed(raw, requiredTerms) == []
  {
    assert CleanTerms(requiredTerms) == [];
    FilterNone(raw, KeptBy(requiredTerms));
  }
}
