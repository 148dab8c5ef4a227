/**
 * `perform_search` of the verification script: one DuckDuckGo query whose hits
 * are kept, as titles, when no terms were required or some cleaned term has
 * every one of its words found as `\b<word>\b`, case-insensitively. Unlike the
 * backend's filter, a term with no words at all is not skipped: it matches
 * vacuously.
 */
module VerifySearch {
  import opened Wrappers
  import opened Sequences
  import opened TextMatch
  import opened Providers
  import opened SearchLogic

  /** Every word of the cleaned term is found with a word boundary on both sides. */
  predicate FullyMatches(text: string, term: string) {
    AllWordsFound(WordBounded, text, Split(term))
  }

  /** Index of the first cleaned term, from `i` on, that fully matches: the term loop stops there. */
  function FirstFullMatchFrom(text: string, clean: seq<string>, i: nat): (r: Option<nat>)
    ensures r.Some? ==> i <= r.value < |clean| && FullyMatches(text, clean[r.value])
                        && forall j :: i <= j < r.value ==> !FullyMatches(text, clean[j])
    ensures r.None? ==> forall j :: i <= j < |clean| ==> !FullyMatches(text, clean[j])
    decreases |clean| - i
  {
    if i >= |clean| then None
    else if FullyMatches(text, clean[i]) then Some(i)
    else FirstFullMatchFrom(text, clean, i + 1)
  }

  /** The term reported as `[MATCH]` for a hit, if any; none is checked without required terms. */
  function MatchedTerm(hit: DdgHit, requiredTerms: seq<string>): Option<nat> {
    if requiredTerms == [] then None else FirstFullMatchFrom(HitText(hit), CleanTerms(requiredTerms), 0)
  }

  /** Whether the hit's title reaches `results.append(title)`. */
  predicate KeepsTitle(hit: DdgHit, requiredTerms: seq<string>) {
    requiredTerms == [] || MatchedTerm(hit, requiredTerms).Some?
  }

  /** `results` after the loop over the hits: the titles of the kept hits, in order. */
  function KeptTitles(hits: seq<DdgHit>, requiredTerms: seq<string>): seq<string>
    decreases |hits|
  {
    if hits == [] then []
    else
      var last := hits[|hits| - 1];
      KeptTitles(hits[..|hits| - 1], requiredTerms) + (if KeepsTitle(last, requiredTerms) then [OrEmpty(last.title)] else [])
  }

  /** The body of `for r in ddg_gen` up to the `continue` or the append: `match_found` and the matched term. */
  method CheckCandidate(hit: DdgHit, requiredTerms: seq<string>) returns (keep: bool, matched: Option<nat>)
    ensures matched == MatchedTerm(hit, requiredTerms)
    ensures keep == KeepsTitle(hit, requiredTerms)
  {
    var title, body, url := OrEmpty(hit.title), OrEmpty(hit.body), OrEmpty(hit.href);
    var combinedText := CombinedText(title, body, url);
    var matchFound := false;
    matched := None;
    if requiredTerms != [] {
      var cleanTerms := CleanTerms(requiredTerms);
      for i := 0 to |cleanTerms|
        invariant !matchFound && matched == None
        invariant FirstFullMatchFrom(combinedText, cleanTerms, 0) == FirstFullMatchFrom(combinedText, cleanTerms, i)
      {
        var subWords := Split(cleanTerms[i]);
        var allWordsFound, missingWord := FindAllWords(WordBounded, combinedText, subWords);
        if allWordsFound {
          matchFound, matched := true, Some(i);
          break;
        }
      }
      if !matchFound {
        return false, matched;
      }
    }
    keep := true;
  }

  /** How a run ends: the provider's exception propagates, or the kept titles are counted. */
  datatype Run = Aborted | Completed(kept: seq<string>)

  function RunResult(o: Outcome<DdgHit>, requiredTerms: seq<string>): Run {
    match o
    case Raised => Aborted
    case Returned(hits) => Completed(KeptTitles(hits, requiredTerms))
  }

  /**
   * `perform_search(query, required_terms, max_results)`; `provider(query, max_results)`
   * is what `DDGS().text(query, max_results=max_results, safesearch='off')` does.
   */
  method PerformSearch(provider: (string, int) -> Outcome<DdgHit>, query: string, requiredTerms: seq<string>,
                       maxResults: int) returns (run: Run)
    ensures run == RunResult(provider(query, maxResults), requiredTerms)
  {
    match provider(query, maxResults) {
      case Raised =>
        return Aborted;
      case Returned(hits) =>
        var results := [];
        for i := 0 to |hits|
          invariant results == KeptTitles(hits[..i], requiredTerms)
        {
          assert hits[..i + 1][..i] == hits[..i];
          var keep, matched := CheckCandidate(hits[i], requiredTerms);
          if !keep {
            continue;
          }
          results := results + [OrEmpty(hits[i].title)];
        }
        assert hits[..|hits|] == hits;
        return Completed(results);
    }
  }

  // ---------------------------------------------------------------------------
  // Properties
  // ---------------------------------------------------------------------------

  /** A hit is kept iff no terms were required or some cleaned term has all its words found. */
  lemma KeepsTitleIff(hit: DdgHit, requiredTerms: seq<string>)
    ensures KeepsTitle(hit, requiredTerms) <==>
              requiredTerms == [] || exists t :: t in CleanTerms(requiredTerms) && FullyMatches(HitText(hit), t)
  {
    var clean := CleanTerms(requiredTerms);
    if requiredTerms != [] {
      var m := FirstFullMatchFrom(HitText(hit), clean, 0);
      if m.Some? {
        assert clean[m.value] in clean;
      }
    }
  }

  /** The kept titles follow the order of the hits. */
  lemma {:induction false} KeptTitlesKeepOrder(hits: seq<DdgHit>, requiredTerms: seq<string>)
    ensures IsSubsequence(KeptTitles(hits, requiredTerms), HitTitles(hits))
    decreases |hits|
  {
    if hits != [] {
      var init, last := hits[..|hits| - 1], hits[|hits| - 1];
      KeptTitlesKeepOrder(init, requiredTerms);
      var before := KeptTitles(init, requiredTerms);
      var keep := KeepsTitle(last, requiredTerms);
      if !keep {
        assert KeptTitles(hits, requiredTerms) == before + [] == before;
      }
      assert HitTitles(hits) == HitTitles(init) + [OrEmpty(last.title)];
      SubsequenceExtend(before, HitTitles(init), OrEmpty(last.title), keep);
    }
  }

  function KeepsTitleBy(requiredTerms: seq<string>): DdgHit -> bool {
    hit => KeepsTitle(hit, requiredTerms)
  }

  /** The loop read as a whole: the titles of the hits that pass, in order. */
  lemma {:induction false} KeptTitlesIsMap(hits: seq<DdgHit>, requiredTerms: seq<string>)
    ensures KeptTitles(hits, requiredTerms) == Map(TitleOf, Filter(hits, KeepsTitleBy(requiredTerms)))
    decreases |hits|
  {
    if hits != [] {
      var init, last := hits[..|hits| - 1], hits[|hits| - 1];
      KeptTitlesIsMap(init, requiredTerms);
      var kept := Filter(init, KeepsTitleBy(requiredTerms));
      if KeepsTitle(last, requiredTerms) {
        assert Filter(hits, KeepsTitleBy(requiredTerms)) == kept + [last];
        assert (kept + [last])[..|kept|] == kept;
      }
    }
  }

  /** A title is in the result iff some hit with that title is kept. */
  lemma KeptTitlesMembers(hits: seq<DdgHit>, requiredTerms: seq<string>, t: string)
    ensures t in KeptTitles(hits, requiredTerms) <==>
              exists k :: 0 <= k < |hits| && KeepsTitle(hits[k], requiredTerms) && OrEmpty(hits[k].title) == t
  {
    KeptTitlesIsMap(hits, requiredTerms);
    MapFilterMembers(TitleOf, KeepsTitleBy(requiredTerms), hits, t);
  }

  /** When every hit is kept, the result is every hit's title. */
  lemma {:induction false} KeptTitlesAll(hits: seq<DdgHit>, requiredTerms: seq<string>)
    requires forall k :: 0 <= k < |hits| ==> KeepsTitle(hits[k], requiredTerms)
    ensures KeptTitles(hits, requiredTerms) == HitTitles(hits)
    decreases |hits|
  {
    if hits != [] {
      var init := hits[..|hits| - 1];
      assert forall k :: 0 <= k < |init| ==> init[k] == hits[k];
      KeptTitlesAll(init, requiredTerms);
    }
  }

  /** With no required terms every candidate's title is kept. */
  lemma NoTermsKeepsEveryTitle(hits: seq<DdgHit>)
    ensures KeptTitles(hits, []) == HitTitles(hits)
  {
    KeptTitlesAll(hits, []);
  }

  /**
   * A non-empty term that cleans to nothing has no words, so it matches every
   * hit vacuously and every title is kept.
   */
  lemma BlankTermKeepsEveryTitle(hits: seq<DdgHit>, requiredTerms: seq<string>, i: nat)
    requires i < |requiredTerms| && requiredTerms[i] != [] && Split(CleanTerm(requiredTerms[i])) == []
    ensures KeptTitles(hits, requiredTerms) == HitTitles(hits)
  {
    var t := CleanTerm(requiredTerms[i]);
    CleanTermsMember(requiredTerms, i);
    forall k | 0 <= k < |hits|
      ensures KeepsTitle(hits[k], requiredTerms)
    {
      KeepsTitleIff(hits[k], requiredTerms);
      assert FullyMatches(HitText(hits[k]), t);
    }
    KeptTitlesAll(hits, requiredTerms);
  }

  /** For instance the term `"  "`: quotes and spaces only. */
  lemma QuotedSpacesKeepEveryTitle(hits: seq<DdgHit>)
    ensures KeptTitles(hits, ["\"  \""]) == HitTitles(hits)
  {
    var t := "\"  \"";
    assert t[0] == '"' && t[1] == ' ' && t[2] == ' ' && t[3] == '"';
    CleanBlankTerm(t);
    BlankTermKeepsEveryTitle(hits, [t], 0);
  }

  /** Required terms that are all empty strings are all dropped by cleaning, so nothing is kept. */
  lemma {:induction false} EmptyTermsKeepNothing(hits: seq<DdgHit>, requiredTerms: seq<string>)
    requires requiredTerms != [] && forall i :: 0 <= i < |requiredTerms| ==> requiredTerms[i] == []
    ensures KeptTitles(hits, requiredTerms) == []
    decreases |hits|
  {
    if hits != [] {
      assert CleanTerms(requiredTerms) == [];
      EmptyTermsKeepNothing(hits[..|hits| - 1], requiredTerms);
    }
  }

  /** The `\b` after the word rejects a following digit, which the letter lookahead lets through. */
  lemma DigitSuffixRejected()
    ensures !Search(WordBounded, "modi123", "modi")
    ensures Search(NotFollowedByLetter, "modi123", "modi")
  {
    var s := "modi123";
    assert MatchAt(NotFollowedByLetter, s, "modi", 0);
    forall p ensures !MatchAt(WordBounded, s, "modi", p) {
      if p == 0 {
        assert IsWordChar(s[3]) && IsWordChar(s[4]);
      } else if 0 < p <= |s| - 4 {
        assert IsWordChar(s[p - 1]) && IsWordChar(s[p]);
      }
    }
  }

  lemma CaseFoldKeepsWordChar(a: char, b: char)
    requires SameIgnoringCase(a, b)
    ensures IsWordChar(a) <==> IsWordChar(b)
  {
  }

  /**
   * For a word ending in a word character, `\b<word>\b` is the stricter
   * pattern: wherever it matches, `\b<word>(?![a-z])` matches too.
   */
  lemma WordBoundedIsStricter(text: string, word: string)
    requires word != [] && IsWordChar(word[|word| - 1])
    ensures Search(WordBounded, text, word) ==> Search(NotFollowedByLetter, text, word)
  {
    if p :| MatchAt(WordBounded, text, word, p) {
      var e := p + |word|;
      CaseFoldKeepsWordChar(text[e - 1], word[|word| - 1]);
      assert MatchAt(NotFollowedByLetter, text, word, p);
    }
  }
}
