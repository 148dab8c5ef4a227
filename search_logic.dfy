/**
 * `perform_search` of the search backend: one DuckDuckGo query, retried a fixed
 * number of times, whose hits are kept only when some required term occurs in
 * them word by word (`\b<word>(?![a-z])`, case-insensitively), annotated with
 * why they were kept and, for a match, a text-fragment anchor on the URL.
 *
 * The code as written reads `combined_text` and `match_found`, neither of
 * which is assigned on the path that reads it. `Keep`, `CheckResult` and
 * everything built on them use the evidently intended definitions;
 * `AttemptAsWritten` and `SearchAsWritten` model the code as it stands.
 */
module SearchLogic {
  import opened Wrappers
  import opened Sequences
  import opened TextMatch
  import opened Providers

  /** One entry of `results`: the hit, possibly with an anchored URL, and why it was kept. */
  datatype Finding = Finding(title: string, url: string, description: string, matchContext: string)

  const GeneralSearchResult: string := "General Search Result"

  /** The text-fragment directive appended to a matched URL. */
  const TextFragment: string := "#:~:text="

  function MatchReason(term: string): string {
    "Matched Name '" + term + "'"
  }

  /** The text a hit is searched in: `f"{title} {body} {url}"`. */
  function HitText(hit: DdgHit): string {
    CombinedText(OrEmpty(hit.title), OrEmpty(hit.body), OrEmpty(hit.href))
  }

  /** A cleaned term matches when it has at least one word and every word is found. */
  predicate TermMatches(text: string, term: string) {
    Split(term) != [] && AllWordsFound(NotFollowedByLetter, text, Split(term))
  }

  /** Index of the first term, from `i` on, that matches: the term loop stops there. */
  function FirstMatchFrom(text: string, terms: seq<string>, i: nat): (r: Option<nat>)
    ensures r.Some? ==> i <= r.value < |terms| && TermMatches(text, terms[r.value])
                        && forall j :: i <= j < r.value ==> !TermMatches(text, terms[j])
    ensures r.None? ==> forall j :: i <= j < |terms| ==> !TermMatches(text, terms[j])
    decreases |terms| - i
  {
    if i >= |terms| then None
    else if TermMatches(text, terms[i]) then Some(i)
    else FirstMatchFrom(text, terms, i + 1)
  }

  /** The URL of a matched hit: anchored at `word` unless it already carries an anchor. */
  function WithFragment(url: string, word: string): (r: string)
    ensures Contains(r, TextFragment)
    ensures Contains(url, TextFragment) ==> r == url
    ensures !Contains(url, TextFragment) ==> r == url + TextFragment + word
  {
    if Contains(url, TextFragment) then url
    else
      var r := url + TextFragment + word;
      assert OccursAt(r, TextFragment, |url|) by {
        assert r[|url|..|url| + |TextFragment|] == TextFragment;
      }
      r
  }

  /** What happens to one hit: kept (with its context) or dropped. */
  function Keep(hit: DdgHit, requiredTerms: seq<string>): Option<Finding> {
    var title, body, url := OrEmpty(hit.title), OrEmpty(hit.body), OrEmpty(hit.href);
    if requiredTerms == [] then Some(Finding(title, url, body, GeneralSearchResult))
    else
      var clean := CleanTerms(requiredTerms);
      match FirstMatchFrom(CombinedText(title, body, url), clean, 0)
      case None => None
      case Some(i) => Some(Finding(title, WithFragment(url, Split(clean[i])[0]), body, MatchReason(clean[i])))
  }

  function Kept(k: Option<Finding>): seq<Finding> {
    match k
    case None => []
    case Some(f) => [f]
  }

  /** The `results` list one attempt builds from the hits it received. */
  function Filtered(hits: seq<DdgHit>, requiredTerms: seq<string>): seq<Finding>
    decreases |hits|
  {
    if hits == [] then []
    else Filtered(hits[..|hits| - 1], requiredTerms) + Kept(Keep(hits[|hits| - 1], requiredTerms))
  }

  /** The body of the `for r in ddg_gen` loop for one hit, with `match_found` starting out false. */
  method CheckResult(hit: DdgHit, requiredTerms: seq<string>) returns (kept: Option<Finding>)
    ensures kept == Keep(hit, requiredTerms)
  {
    var title, body, url := OrEmpty(hit.title), OrEmpty(hit.body), OrEmpty(hit.href);
    var combinedText := CombinedText(title, body, url);
    var matchReason := "";
    if requiredTerms != [] {
      var cleanTerms := CleanTerms(requiredTerms);
      var matchFound := false;
      for i := 0 to |cleanTerms|
        invariant !matchFound
        invariant FirstMatchFrom(combinedText, cleanTerms, 0) == FirstMatchFrom(combinedText, cleanTerms, i)
        invariant url == OrEmpty(hit.href) && matchReason == ""
      {
        var subWords := Split(cleanTerms[i]);
        if subWords == [] {
          continue;
        }
        var allWordsFound, missingWord := FindAllWords(NotFollowedByLetter, combinedText, subWords);
        if allWordsFound {
          assert FirstMatchFrom(combinedText, cleanTerms, i) == Some(i);
          matchReason := MatchReason(cleanTerms[i]);
          matchFound := true;
          if !Contains(url, TextFragment) {
            url := url + TextFragment + subWords[0];
          }
          break;
        }
      }
      if !matchFound {
        return None;
      }
    } else {
      matchReason := GeneralSearchResult;
    }
    kept := Some(Finding(title, url, body, matchReason));
  }

  /** One attempt's pass over the hits: `results` in hit order. */
  method FilterAttempt(hits: seq<DdgHit>, requiredTerms: seq<string>) returns (results: seq<Finding>)
    ensures results == Filtered(hits, requiredTerms)
  {
    results := [];
    for i := 0 to |hits|
      invariant results == Filtered(hits[..i], requiredTerms)
    {
      var kept := CheckResult(hits[i], requiredTerms);
      assert hits[..i + 1][..i] == hits[..i];
      if kept.Some? {
        results := results + [kept.value];
      }
    }
    assert hits[..|hits|] == hits;
  }

  /** What one attempt yields: nothing when the provider call raised. */
  function AttemptFindings(o: Outcome<DdgHit>, requiredTerms: seq<string>): seq<Finding> {
    match o
    case Raised => []
    case Returned(hits) => Filtered(hits, requiredTerms)
  }

  /** The `results` each attempt `0 .. retries - 1` builds, in attempt order. */
  function AttemptResults(provider: (string, nat) -> Outcome<DdgHit>, query: string, requiredTerms: seq<string>,
                          retries: int): (rs: seq<seq<Finding>>)
    ensures |rs| == if retries < 0 then 0 else retries
    ensures forall k :: 0 <= k < |rs| ==> rs[k] == AttemptFindings(provider(query, k), requiredTerms)
  {
    var n := if retries < 0 then 0 else retries;
    seq(n, k requires 0 <= k < n => AttemptFindings(provider(query, k), requiredTerms))
  }

  /** What `perform_search` returns: the first attempt's non-empty `results`, else `[]`. */
  function SearchResults(provider: (string, nat) -> Outcome<DdgHit>, query: string, requiredTerms: seq<string>,
                         retries: int): seq<Finding>
  {
    FirstNonEmpty(AttemptResults(provider, query, requiredTerms, retries))
  }

  /**
   * `perform_search(query, required_terms, retries=retries)`; `provider(query, k)`
   * is what `DDGS().text(query, ...)` does on attempt `k`.
   */
  method PerformSearch(provider: (string, nat) -> Outcome<DdgHit>, query: string, requiredTerms: seq<string>,
                       retries: int) returns (results: seq<Finding>)
    ensures results == SearchResults(provider, query, requiredTerms, retries)
  {
    ghost var rs := AttemptResults(provider, query, requiredTerms, retries);
    var attempt: nat := 0;
    while attempt < retries
      invariant attempt <= |rs|
      invariant FirstNonEmpty(rs) == FirstNonEmpty(rs[attempt..])
      decreases retries - attempt
    {
      FirstNonEmptyStep(rs, attempt);
      assert rs[attempt] == AttemptFindings(provider(query, attempt), requiredTerms);
      match provider(query, attempt) {
        case Raised =>
          // logged; the attempt backs off before the next one
        case Returned(hits) =>
          results := FilterAttempt(hits, requiredTerms);
          if results != [] {
            return;
          }
      }
      attempt := attempt + 1;
    }
    assert rs[attempt..] == [];
    results := [];
  }

  // ---------------------------------------------------------------------------
  // Properties
  // ---------------------------------------------------------------------------

  /** A hit is kept iff no terms were required or some cleaned term has all its words found. */
  lemma {:induction false} KeepIff(hit: DdgHit, requiredTerms: seq<string>)
    ensures Keep(hit, requiredTerms).Some? <==>
            requiredTerms == [] ||
            exists i :: 0 <= i < |CleanTerms(requiredTerms)| && TermMatches(HitText(hit), CleanTerms(requiredTerms)[i])
  {
    if requiredTerms != [] {
      var clean := CleanTerms(requiredTerms);
      var m := FirstMatchFrom(HitText(hit), clean, 0);
      assert Keep(hit, requiredTerms).Some? <==> m.Some?;
      if m.Some? {
        assert TermMatches(HitText(hit), clean[m.value]);
      }
    }
  }

  /** Every kept hit keeps its title and description. */
  lemma KeepPreservesHit(hit: DdgHit, requiredTerms: seq<string>)
    requires Keep(hit, requiredTerms).Some?
    ensures Keep(hit, requiredTerms).value.title == OrEmpty(hit.title)
    ensures Keep(hit, requiredTerms).value.description == OrEmpty(hit.body)
  {
  }

  /**
   * A hit kept because of a term names the first matching term, and its URL is
   * the original one, extended by the anchor at that term's first word only when
   * the original carried none.
   */
  lemma {:induction false} MatchedHitShape(hit: DdgHit, requiredTerms: seq<string>)
    requires requiredTerms != [] && Keep(hit, requiredTerms).Some?
    ensures Contains(Keep(hit, requiredTerms).value.url, TextFragment)
    ensures exists i :: 0 <= i < |CleanTerms(requiredTerms)| && MatchedBy(hit, requiredTerms, i)
  {
    var clean := CleanTerms(requiredTerms);
    var m := FirstMatchFrom(HitText(hit), clean, 0);
    assert m.Some?;
    var i := m.value;
    assert MatchedBy(hit, requiredTerms, i);
  }

  /**
   * The kept hit was matched by cleaned term `i`: the first that matches, named
   * in the match context, whose first word anchors the URL unless it had an anchor.
   */
  ghost predicate MatchedBy(hit: DdgHit, requiredTerms: seq<string>, i: nat)
    requires requiredTerms != [] && Keep(hit, requiredTerms).Some?
    requires i < |CleanTerms(requiredTerms)|
  {
    var f := Keep(hit, requiredTerms).value;
    var clean := CleanTerms(requiredTerms);
    && TermMatches(HitText(hit), clean[i])
    && (forall j :: 0 <= j < i ==> !TermMatches(HitText(hit), clean[j]))
    && f.matchContext == MatchReason(clean[i])
    && f.url == WithFragment(OrEmpty(hit.href), Split(clean[i])[0])
  }

  /** Anchoring an anchored URL again changes nothing: the anchor is never appended twice. */
  lemma FragmentAppendedAtMostOnce(url: string, word: string, other: string)
    ensures WithFragment(WithFragment(url, word), other) == WithFragment(url, word)
  {
  }

  /** Without required terms every hit is kept, unchanged, as a general search result. */
  lemma {:induction false} NoTermsKeepsEveryHit(hits: seq<DdgHit>)
    ensures |Filtered(hits, [])| == |hits|
    ensures forall i :: 0 <= i < |hits| ==>
              Filtered(hits, [])[i] == Finding(OrEmpty(hits[i].title), OrEmpty(hits[i].href),
                                               OrEmpty(hits[i].body), GeneralSearchResult)
  {
    if hits != [] {
      var init := hits[..|hits| - 1];
      NoTermsKeepsEveryHit(init);
      assert forall i :: 0 <= i < |init| ==> init[i] == hits[i];
    }
  }

  function Titles(fs: seq<Finding>): seq<string>
    decreases |fs|
  {
    if fs == [] then [] else Titles(fs[..|fs| - 1]) + [fs[|fs| - 1].title]
  }

  /** The titles of the hits, in order. */
  function HitTitles(hits: seq<DdgHit>): seq<string> {
    Map(TitleOf, hits)
  }

  /** The kept results follow the order of the hits: their titles are a subsequence of the hits' titles. */
  lemma {:induction false} FilteredKeepsOrder(hits: seq<DdgHit>, requiredTerms: seq<string>)
    ensures IsSubsequence(Titles(Filtered(hits, requiredTerms)), HitTitles(hits))
  {
    if hits != [] {
      var init, last := hits[..|hits| - 1], hits[|hits| - 1];
      FilteredKeepsOrder(init, requiredTerms);
      var k := Keep(last, requiredTerms);
      var before := Filtered(init, requiredTerms);
      assert Filtered(hits, requiredTerms) == before + Kept(k);
      if k.Some? {
        KeepPreservesHit(last, requiredTerms);
        var after := before + [k.value];
        assert after[..|after| - 1] == before;
        assert Titles(after) == Titles(before) + [OrEmpty(last.title)];
      } else {
        assert before + Kept(k) == before;
      }
      SubsequenceExtend(Titles(before), HitTitles(init), OrEmpty(last.title), k.Some?);
    }
  }

  /** The comment's example: "modi" matches "modi123" but not "modification". */
  lemma LetterLookaheadExamples()
    ensures Search(NotFollowedByLetter, "modi123", "modi")
    ensures !Search(NotFollowedByLetter, "modification", "modi")
  {
    assert MatchAt(NotFollowedByLetter, "modi123", "modi", 0);
    var s := "modification";
    forall p ensures !MatchAt(NotFollowedByLetter, s, "modi", p) {
      if p == 0 {
        assert IsLetter(s[4]);
      } else if 0 < p <= |s| - 4 {
        assert IsWordChar(s[p - 1]) && IsWordChar(s[p]);
      }
    }
  }

  // ---------------------------------------------------------------------------
  // The code as written
  // ---------------------------------------------------------------------------

  /** How one attempt of the code as written ends. */
  datatype AttemptEnd = Crashed(error: string) | Finished(results: seq<Finding>)

  /**
   * One attempt as written. With required terms the first hit either reaches
   * `combined_text` (line 63, NameError) or, when no cleaned term has a word,
   * reads `match_found` before any assignment (line 80, UnboundLocalError); both are
   * caught by the retry loop.
   */
  function AttemptAsWritten(o: Outcome<DdgHit>, requiredTerms: seq<string>): (e: AttemptEnd)
    ensures requiredTerms != [] ==> e.Crashed? || e == Finished([])
    ensures requiredTerms == [] && o.Returned? ==> e == Finished(AttemptFindings(o, []))
  {
    match o
    case Raised => Crashed("provider error")
    case Returned(hits) =>
      if hits == [] then Finished([])
      else if requiredTerms == [] then Finished(Filtered(hits, []))
      else if SomeTermHasWords(CleanTerms(requiredTerms)) then
        Crashed("NameError: name 'combined_text' is not defined")
      else Crashed("UnboundLocalError: local variable 'match_found' referenced before assignment")
  }

  /** Some cleaned term survives `split()` with at least one word. */
  predicate SomeTermHasWords(clean: seq<string>) {
    exists i :: 0 <= i < |clean| && Split(clean[i]) != []
  }

  function AsWrittenResults(e: AttemptEnd): seq<Finding> {
    match e
    case Crashed(_) => []
    case Finished(results) => results
  }

  /**
   * `perform_search` as written: the first attempt that finished with results,
   * else `[]`. Without required terms the faulty lines are never reached, and
   * it returns what the intended code returns.
   */
  function SearchAsWritten(provider: (string, nat) -> Outcome<DdgHit>, query: string, requiredTerms: seq<string>,
                           retries: int): (r: seq<Finding>)
    ensures requiredTerms == [] ==> r == SearchResults(provider, query, [], retries)
  {
    var n := if retries < 0 then 0 else retries;
    var rs := seq(n, k requires 0 <= k < n => AsWrittenResults(AttemptAsWritten(provider(query, k), requiredTerms)));
    assert requiredTerms == [] ==> rs == AttemptResults(provider, query, requiredTerms, retries) by {
      if requiredTerms == [] {
        var intended := AttemptResults(provider, query, requiredTerms, retries);
        forall k | 0 <= k < n ensures rs[k] == intended[k] {
          var o := provider(query, k);
          assert o.Raised? ==> AsWrittenResults(AttemptAsWritten(o, requiredTerms)) == [];
        }
      }
    }
    FirstNonEmpty(rs)
  }

  /** As written, `perform_search` with any required term returns `[]`, whatever the provider says. */
  lemma AsWrittenKeepsNothing(provider: (string, nat) -> Outcome<DdgHit>, query: string,
                              requiredTerms: seq<string>, retries: int)
    requires requiredTerms != []
    ensures SearchAsWritten(provider, query, requiredTerms, retries) == []
  {
    var n := if retries < 0 then 0 else retries;
    var rs := seq(n, k requires 0 <= k < n => AsWrittenResults(AttemptAsWritten(provider(query, k), requiredTerms)));
    forall k | 0 <= k < n ensures rs[k] == [] {
      var e := AttemptAsWritten(provider(query, k), requiredTerms);
      assert e.Crashed? || e == Finished([]);
    }
    FirstNonEmptyIsFirst(rs);
  }

  /** The hit of the counterexample, and the finding the intended code makes of it. */
  const AdaUrl: string := "ada.io"
  const AdaHit: DdgHit := DdgHit(Some("Ada"), Some(AdaUrl), None)
  /** The URL comes back as `ada.io#:~:text=Ada`, the context as `Matched Name 'Ada'`. */
  const AdaFinding: Finding := Finding("Ada", AdaUrl + TextFragment + "Ada", "", MatchReason("Ada"))

  /** A term without quotes and without surrounding whitespace is its own cleaned form. */
  lemma CleanSingleTerm(t: string)
    requires t != [] && '"' !in t && !IsSpace(t[0]) && !IsSpace(t[|t| - 1])
    ensures CleanTerms([t]) == [t]
  {
    assert [t][..0] == [];
    assert RemoveQuotes(t) == t;
    assert Strip(t) == t;
  }

  lemma AdaIsClean()
    ensures CleanTerms(["Ada"]) == ["Ada"]
  {
    var t := "Ada";
    assert t[0] == 'A' && t[|t| - 1] == 'a';
    CleanSingleTerm(t);
  }

  lemma AdaIsOneWord()
    ensures Split("Ada") == ["Ada"]
  {
    assert TokenLength("Ada") == 3;
    assert "Ada"[..3] == "Ada";
  }

  lemma AdaTermMatches()
    ensures TermMatches(HitText(AdaHit), "Ada")
  {
    AdaIsOneWord();
    assert MatchAt(NotFollowedByLetter, HitText(AdaHit), "Ada", 0);
  }

  lemma AdaUrlHasNoAnchor()
    ensures !Contains(AdaUrl, TextFragment)
  {
    assert |AdaUrl| < |TextFragment|;
  }

  lemma AdaKeep(hit: DdgHit, terms: seq<string>)
    requires hit == AdaHit && terms == ["Ada"]
    ensures Keep(hit, terms) == Some(AdaFinding)
  {
    var clean := CleanTerms(terms);
    AdaIsClean();
    AdaTermMatches();
    assert FirstMatchFrom(HitText(hit), clean, 0) == Some(0);
    AdaIsOneWord();
    AdaUrlHasNoAnchor();
    assert WithFragment(AdaUrl, Split(clean[0])[0]) == AdaUrl + TextFragment + "Ada";
  }

  /** A finding is in an attempt's `results` iff `Keep` makes it of one of the hits. */
  lemma {:induction false} FilteredMembers(hits: seq<DdgHit>, requiredTerms: seq<string>, f: Finding)
    ensures f in Filtered(hits, requiredTerms) <==>
              exists k :: 0 <= k < |hits| && Keep(hits[k], requiredTerms) == Some(f)
    decreases |hits|
  {
    if hits != [] {
      var init, last := hits[..|hits| - 1], hits[|hits| - 1];
      assert init + [last] == hits;
      FilteredMembers(init, requiredTerms, f);
      if f in Filtered(init, requiredTerms) {
        var k :| 0 <= k < |init| && Keep(init[k], requiredTerms) == Some(f);
        assert hits[k] == init[k];
      }
      if k :| 0 <= k < |hits| && Keep(hits[k], requiredTerms) == Some(f) {
        if k < |init| {
          assert init[k] == hits[k];
        }
      }
    }
  }

  /**
   * Every finding `perform_search` returns is what `Keep` makes of a hit that
   * one of the first `retries` attempts received.
   */
  lemma SearchResultsKept(provider: (string, nat) -> Outcome<DdgHit>, query: string, requiredTerms: seq<string>,
                          retries: int, f: Finding)
    requires f in SearchResults(provider, query, requiredTerms, retries)
    ensures exists k: nat :: k < retries && provider(query, k).Returned? &&
              exists j :: 0 <= j < |provider(query, k).hits| && Keep(provider(query, k).hits[j], requiredTerms) == Some(f)
  {
    var rs := AttemptResults(provider, query, requiredTerms, retries);
    FirstNonEmptyIsFirst(rs);
    var k :| 0 <= k < |rs| && FirstNonEmpty(rs) == rs[k] && forall j :: 0 <= j < k ==> rs[j] == [];
    var o := provider(query, k);
    assert o.Returned?;
    FilteredMembers(o.hits, requiredTerms, f);
  }

  /** One hit is filtered exactly as `Keep` decides. */
  lemma FilteredSingle(hit: DdgHit, requiredTerms: seq<string>)
    ensures Filtered([hit], requiredTerms) == Kept(Keep(hit, requiredTerms))
  {
    assert [hit][..0] == [];
  }

  /** An attempt that returns just the hit titled "Ada" yields its finding. */
  lemma AdaAttempt(o: Outcome<DdgHit>)
    requires o == Returned([AdaHit])
    ensures AttemptFindings(o, ["Ada"]) == [AdaFinding]
  {
    FilteredSingle(AdaHit, ["Ada"]);
    AdaKeep(AdaHit, ["Ada"]);
  }

  /** A hit titled "Ada" for the required term "Ada": dropped as written, kept as intended. */
  lemma AsWrittenDropsAda(provider: (string, nat) -> Outcome<DdgHit>)
    requires forall k :: provider("Ada", k) == Returned([AdaHit])
    ensures SearchAsWritten(provider, "Ada", ["Ada"], 3) == []
    ensures SearchResults(provider, "Ada", ["Ada"], 3) == [AdaFinding]
  {
    AsWrittenKeepsNothing(provider, "Ada", ["Ada"], 3);
    var rs := AttemptResults(provider, "Ada", ["Ada"], 3);
    AdaAttempt(provider("Ada", 0));
    assert rs[0] == [AdaFinding];
  }
}
