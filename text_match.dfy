/**
 * ASCII model of the Python string operations and regular-expression searches
 * that the three relevance filters are built from: `str.split()`, `str.strip()`,
 * `str.replace('"', '')`, the substring test `x in s`, and `re.search` with the
 * patterns `\b<word>(?![a-z])` and `\b<word>\b` under `re.IGNORECASE`.
 */
module TextMatch {
  import opened Sequences

  // ---------------------------------------------------------------------------
  // Character classes
  // ---------------------------------------------------------------------------

  /** `str.isspace()` on ASCII: space, TAB, LF, VT, FF, CR and the separators 0x1C-0x1F. */
  predicate IsSpace(c: char) {
    c == ' ' || (9 <= c as int <= 13) || (28 <= c as int <= 31)
  }

  predicate IsLetter(c: char) {
    ('a' <= c <= 'z') || ('A' <= c <= 'Z')
  }

  /** The characters `\w` stands for in the ASCII model. */
  predicate IsWordChar(c: char) {
    IsLetter(c) || ('0' <= c <= '9') || c == '_'
  }

  function Lower(c: char): char {
    if 'A' <= c <= 'Z' then (c as int - 'A' as int + 'a' as int) as char else c
  }

  /** Equality of two characters under `re.IGNORECASE` (ASCII case folding). */
  predicate SameIgnoringCase(a: char, b: char) {
    Lower(a) == Lower(b)
  }

  predicate NoSpace(s: string) {
    forall k :: 0 <= k < |s| ==> !IsSpace(s[k])
  }

  predicate AllSpace(s: string) {
    forall k :: 0 <= k < |s| ==> IsSpace(s[k])
  }

  predicate NotSpace(c: char) {
    !IsSpace(c)
  }

  predicate NotQuote(c: char) {
    c != '"'
  }

  /** The test `if t` on a string. */
  predicate NonEmpty(t: string) {
    t != []
  }

  // ---------------------------------------------------------------------------
  // str.split(), str.strip(), str.replace('"', '')
  // ---------------------------------------------------------------------------

  /** Length of the run of non-space characters that starts `s`. */
  function TokenLength(s: string): (n: nat)
    ensures n <= |s|
    ensures NoSpace(s[..n])
    ensures n < |s| ==> IsSpace(s[n])
    ensures s != [] && !IsSpace(s[0]) ==> n >= 1
    decreases |s|
  {
    if s == [] || IsSpace(s[0]) then 0
    else
      var n := 1 + TokenLength(s[1..]);
      assert forall k :: 1 <= k < n ==> s[k] == s[1..][k - 1];
      n
  }

  /** The run that starts `s` ends exactly at the first whitespace character, or at the end of `s`. */
  lemma {:induction false} TokenLengthUnique(s: string, m: nat)
    requires m <= |s| && NoSpace(s[..m]) && (m < |s| ==> IsSpace(s[m]))
    ensures TokenLength(s) == m
    decreases m
  {
    if m > 0 {
      assert s[..m][0] == s[0];
      assert s[1..][..m - 1] == s[..m][1..];
      TokenLengthUnique(s[1..], m - 1);
    }
  }

  /** Leading whitespace contributes nothing to the non-space characters. */
  lemma FilterSpaceFirst(s: string)
    requires s != [] && IsSpace(s[0])
    ensures Filter(s, NotSpace) == Filter(s[1..], NotSpace)
  {
    var rest := s[1..];
    calc {
      Filter(s, NotSpace);
      == { assert s == [s[0]] + rest; }
      Filter([s[0]] + rest, NotSpace);
      == { FilterAppend([s[0]], rest, NotSpace); }
      Filter([s[0]], NotSpace) + Filter(rest, NotSpace);
      == { assert [s[0]][..0] == []; }
      Filter(rest, NotSpace);
    }
  }

  /** A leading run of non-space characters is kept whole. */
  lemma FilterRunFirst(s: string, n: nat)
    requires n <= |s| && NoSpace(s[..n])
    ensures Filter(s, NotSpace) == s[..n] + Filter(s[n..], NotSpace)
  {
    var run, rest := s[..n], s[n..];
    calc {
      Filter(s, NotSpace);
      == { assert s == run + rest; }
      Filter(run + rest, NotSpace);
      == { FilterAppend(run, rest, NotSpace); }
      Filter(run, NotSpace) + Filter(rest, NotSpace);
      == { FilterAll(run, NotSpace); }
      run + Filter(rest, NotSpace);
    }
  }

  /** `s.split()`: the maximal runs of non-space characters of `s`, in order. */
  function Split(s: string): (words: seq<string>)
    ensures forall i :: 0 <= i < |words| ==> words[i] != [] && NoSpace(words[i])
    ensures words == [] <==> AllSpace(s)
    ensures s != [] && NoSpace(s) ==> words == [s]
    decreases |s|
  {
    if s == [] then []
    else if IsSpace(s[0]) then
      var rest := Split(s[1..]);
      assert AllSpace(s[1..]) ==> AllSpace(s) by {
        if AllSpace(s[1..]) {
          forall k | 1 <= k < |s| ensures IsSpace(s[k]) { assert s[k] == s[1..][k - 1]; }
        }
      }
      assert AllSpace(s) ==> AllSpace(s[1..]) by {
        if AllSpace(s) {
          forall k | 0 <= k < |s| - 1 ensures IsSpace(s[1..][k]) { assert s[1..][k] == s[k + 1]; }
        }
      }
      rest
    else
      var n := TokenLength(s);
      var word, rest := s[..n], Split(s[n..]);
      assert NoSpace(s) ==> n == |s| && word == s && rest == [];
      [word] + rest
  }

  /** Joined up again, the words give back `s` without its whitespace. */
  lemma {:induction false} SplitJoins(s: string)
    ensures Concat(Split(s)) == Filter(s, NotSpace)
    decreases |s|
  {
    if s != [] {
      if IsSpace(s[0]) {
        FilterSpaceFirst(s);
        SplitJoins(s[1..]);
      } else {
        var n := TokenLength(s);
        var rest := Split(s[n..]);
        FilterRunFirst(s, n);
        SplitJoins(s[n..]);
        assert ([s[..n]] + rest)[1..] == rest;
      }
    }
  }

  /** A whitespace character splits the text in two, and the words of the two parts follow each other. */
  lemma {:induction false} SplitAtSpace(a: string, c: char, b: string)
    requires IsSpace(c)
    ensures Split(a + [c] + b) == Split(a) + Split(b)
    decreases |a|
  {
    var s := a + [c] + b;
    if a == [] {
      AroundSeparator(a, c, b, 0);
    } else if IsSpace(a[0]) {
      AroundSeparator(a, c, b, 1);
      SplitAtSpace(a[1..], c, b);
    } else {
      var n := TokenLength(a);
      AroundSeparator(a, c, b, n);
      assert n < |s| ==> IsSpace(s[n]) by {
        if n < |a| { assert s[n] == s[..n + 1][n] == a[..n + 1][n]; }
      }
      TokenLengthUnique(s, n);
      SplitAtSpace(a[n..], c, b);
    }
  }

  /** A maximal run of non-space characters between two whitespace characters is one word, in its place. */
  lemma SplitRun(a: string, c: char, w: string, d: char, b: string)
    requires IsSpace(c) && IsSpace(d) && w != [] && NoSpace(w)
    ensures Split(a + [c] + w + [d] + b) == Split(a) + [w] + Split(b)
  {
    var tail := w + [d] + b;
    RegroupAfter(a, c, w, d, b);
    SplitAtSpace(a, c, tail);
    SplitAtSpace(w, d, b);
    var x, y := Split(a), Split(b);
    assert Split(tail) == [w] + y;
    assert x + ([w] + y) == x + [w] + y;
  }

  /** `s.lstrip()` */
  function TrimStart(s: string): (r: string)
    ensures |r| <= |s| && r == s[|s| - |r|..]
    ensures r == [] || !IsSpace(r[0])
    ensures AllSpace(s[..|s| - |r|])
    ensures s == [] || !IsSpace(s[0]) ==> r == s
    decreases |s|
  {
    if s != [] && IsSpace(s[0]) then
      var r := TrimStart(s[1..]);
      assert AllSpace(s[..|s| - |r|]) by {
        forall k | 1 <= k < |s| - |r| ensures IsSpace(s[k]) {
          assert s[k] == s[1..][..|s| - 1 - |r|][k - 1];
        }
      }
      r
    else s
  }

  /** `s.rstrip()` */
  function TrimEnd(s: string): (r: string)
    ensures |r| <= |s| && r == s[..|r|]
    ensures r == [] || !IsSpace(r[|r| - 1])
    ensures AllSpace(s[|r|..])
    ensures s == [] || !IsSpace(s[|s| - 1]) ==> r == s
    decreases |s|
  {
    if s != [] && IsSpace(s[|s| - 1]) then
      var r := TrimEnd(s[..|s| - 1]);
      assert AllSpace(s[|r|..]) by {
        forall k | |r| <= k < |s| ensures IsSpace(s[k]) {
          if k < |s| - 1 { assert s[k] == s[..|s| - 1][|r|..][k - |r|]; }
        }
      }
      r
    else s
  }

  /** `s.strip()`: `s` without its leading and trailing whitespace. */
  function Strip(s: string): (r: string)
    ensures r == [] || (!IsSpace(r[0]) && !IsSpace(r[|r| - 1]))
    ensures |r| <= |s|
    ensures s == [] || (!IsSpace(s[0]) && !IsSpace(s[|s| - 1])) ==> r == s
  {
    TrimEnd(TrimStart(s))
  }

  /** Number of leading whitespace characters, which `strip` removes first. */
  function LeadingSpace(s: string): nat {
    |s| - |TrimStart(s)|
  }

  /** `r` is `s` with its first `i` characters and some trailing characters cut off, all of them whitespace. */
  predicate OuterSpaceCut(s: string, i: nat, r: string) {
    i + |r| <= |s| && r == s[i..i + |r|] && AllSpace(s[..i]) && AllSpace(s[i + |r|..])
  }

  /** Whitespace cut off the front of `s`, giving `t`, then off the back of `t`, giving `r`. */
  lemma TwoCuts(s: string, t: string, r: string)
    requires |t| <= |s| && t == s[|s| - |t|..] && AllSpace(s[..|s| - |t|])
    requires |r| <= |t| && r == t[..|r|] && AllSpace(t[|r|..])
    ensures OuterSpaceCut(s, |s| - |t|, r)
  {
    SliceOfSuffix(s, |s| - |t|, |r|);
  }

  /** What `strip` removes is whitespace, from the two ends only. */
  lemma StripRemovesOuterSpace(s: string)
    ensures OuterSpaceCut(s, LeadingSpace(s), Strip(s))
  {
    var t := TrimStart(s);
    var r := TrimEnd(t);
    TwoCuts(s, t, r);
    assert Strip(s) == r && LeadingSpace(s) == |s| - |t|;
  }

  /** `strip` introduces no character: one absent from `s` is absent from `Strip(s)`. */
  lemma StripAddsNothing(s: string, c: char)
    requires c !in s
    ensures c !in Strip(s)
  {
    StripKeepsOrder(s);
    if c in Strip(s) {
      SubsequenceMembers(Strip(s), s, c);
    }
  }

  /** `s.replace('"', '')`: `s` with every double quote deleted and nothing else changed. */
  function RemoveQuotes(s: string): (r: string)
    ensures r == Filter(s, NotQuote)
    ensures IsSubsequence(r, s)
    ensures '"' !in r
    ensures forall c :: c != '"' ==> multiset(r)[c] == multiset(s)[c]
    ensures '"' !in s ==> r == s
    decreases |s|
  {
    if s == [] then []
    else
      var init, last := s[..|s| - 1], s[|s| - 1];
      var rest := RemoveQuotes(init);
      assert s == init + [last];
      assert multiset(s) == multiset(init) + multiset{last};
      FilterKeepsOrder(s, NotQuote);
      if last == '"' then rest else rest + [last]
  }

  /** A non-space character does not occur in whitespace. */
  lemma NoCharInSpace(x: string, c: char)
    requires AllSpace(x) && !IsSpace(c)
    ensures multiset(x)[c] == 0
  {
  }

  /** Cutting whitespace off the two ends keeps the rest in order. */
  lemma OuterSpaceCutKeepsOrder(s: string, i: nat, r: string)
    requires OuterSpaceCut(s, i, r)
    ensures IsSubsequence(r, s)
  {
    SliceIsSubsequence(s, i, i + |r|);
  }

  /** What `strip` keeps is in order. */
  lemma StripKeepsOrder(s: string)
    ensures IsSubsequence(Strip(s), s)
  {
    StripRemovesOuterSpace(s);
    OuterSpaceCutKeepsOrder(s, LeadingSpace(s), Strip(s));
  }

  /** Cutting whitespace off the two ends keeps every other character, as often as it occurs. */
  lemma OuterSpaceCutKeepsCharacters(s: string, i: nat, r: string)
    requires OuterSpaceCut(s, i, r)
    ensures forall c :: !IsSpace(c) ==> multiset(r)[c] == multiset(s)[c]
  {
    var j := i + |r|;
    var before, after := s[..i], s[j..];
    assert s == before + r + after by {
      assert before + r == s[..j];
      assert s[..j] + after == s;
    }
    forall c | !IsSpace(c) ensures multiset(r)[c] == multiset(s)[c] {
      NoCharInSpace(before, c);
      NoCharInSpace(after, c);
    }
  }

  /** What `strip` keeps is every non-whitespace character, as often as it occurs. */
  lemma StripKeepsCharacters(s: string)
    ensures forall c :: !IsSpace(c) ==> multiset(Strip(s))[c] == multiset(s)[c]
  {
    StripRemovesOuterSpace(s);
    OuterSpaceCutKeepsCharacters(s, LeadingSpace(s), Strip(s));
  }

  /** One required term after `t.replace('"', '').strip()`. */
  function CleanTerm(t: string): (r: string)
    ensures '"' !in r
    ensures r == [] || (!IsSpace(r[0]) && !IsSpace(r[|r| - 1]))
  {
    var q := RemoveQuotes(t);
    var r := Strip(q);
    StripAddsNothing(q, '"');
    r
  }

  /**
   * A cleaned term is one contiguous slice of the quote-free term: `strip` cuts
   * whitespace off the two ends only, so whitespace inside the term survives.
   */
  lemma CleanTermIsSlice(t: string)
    ensures OuterSpaceCut(RemoveQuotes(t), LeadingSpace(RemoveQuotes(t)), CleanTerm(t))
  {
    var q := RemoveQuotes(t);
    assert CleanTerm(t) == Strip(q);
    StripRemovesOuterSpace(q);
  }

  /**
   * Cleaning keeps the order of what it keeps, and it loses only double quotes
   * and whitespace: every other character survives with its multiplicity.
   */
  lemma CleanTermContent(t: string)
    ensures IsSubsequence(CleanTerm(t), t)
    ensures forall c :: c != '"' && !IsSpace(c) ==> multiset(CleanTerm(t))[c] == multiset(t)[c]
  {
    var q := RemoveQuotes(t);
    StripKeepsOrder(q);
    StripKeepsCharacters(q);
    SubsequenceTrans(Strip(q), q, t);
  }

  /**
   * `[t.replace('"', '').strip() for t in required_terms if t]`: empty terms are
   * dropped before cleaning, so a term that only becomes empty by cleaning stays.
   */
  function CleanTerms(terms: seq<string>): (clean: seq<string>)
    ensures |clean| <= |terms|
    ensures forall i :: 0 <= i < |clean| ==> '"' !in clean[i]
    ensures (forall i :: 0 <= i < |terms| ==> terms[i] == []) <==> clean == []
    decreases |terms|
  {
    if terms == [] then []
    else
      var init := CleanTerms(terms[..|terms| - 1]);
      var last := terms[|terms| - 1];
      assert forall i :: 0 <= i < |terms| - 1 ==> terms[i] == terms[..|terms| - 1][i];
      if last == [] then init else init + [CleanTerm(last)]
  }

  /** The comprehension read as a whole: clean every non-empty term, in order. */
  lemma {:induction false} CleanTermsIsMap(terms: seq<string>)
    ensures CleanTerms(terms) == Map(CleanTerm, Filter(terms, NonEmpty))
    decreases |terms|
  {
    if terms != [] {
      var init, last := terms[..|terms| - 1], terms[|terms| - 1];
      CleanTermsIsMap(init);
      var kept := Filter(init, NonEmpty);
      if last != [] {
        assert Filter(terms, NonEmpty) == kept + [last];
        assert (kept + [last])[..|kept|] == kept;
      }
    }
  }

  /** Each cleaned term is the cleaned form of a non-empty term, at the same rank among the non-empty terms. */
  lemma CleanTermsFrom(terms: seq<string>, j: nat)
    requires j < |CleanTerms(terms)|
    ensures exists i :: 0 <= i < |terms| && terms[i] != [] && CleanTerms(terms)[j] == CleanTerm(terms[i])
  {
    var kept := Filter(terms, NonEmpty);
    CleanTermsIsMap(terms);
    FilterMembers(terms, NonEmpty, kept[j]);
    var i :| 0 <= i < |terms| && terms[i] == kept[j];
    assert CleanTerms(terms)[j] == CleanTerm(terms[i]);
  }

  /** Cleaning works term by term: the cleaned list of a concatenation is the concatenation of the cleaned lists. */
  lemma CleanTermsAppend(a: seq<string>, b: seq<string>)
    ensures CleanTerms(a + b) == CleanTerms(a) + CleanTerms(b)
  {
    CleanTermsIsMap(a);
    CleanTermsIsMap(b);
    CleanTermsIsMap(a + b);
    FilterAppend(a, b, NonEmpty);
    MapAppend(CleanTerm, Filter(a, NonEmpty), Filter(b, NonEmpty));
  }

  /** A single term is dropped when empty and cleaned otherwise. */
  lemma CleanTermsOne(t: string)
    ensures CleanTerms([t]) == if t == [] then [] else [CleanTerm(t)]
  {
    assert [t][..0] == [];
  }

  /** Every non-empty term survives into the cleaned list, as its cleaned form. */
  lemma {:induction false} CleanTermsMember(terms: seq<string>, i: nat)
    requires i < |terms| && terms[i] != []
    ensures CleanTerm(terms[i]) in CleanTerms(terms)
    decreases |terms|
  {
    var init := terms[..|terms| - 1];
    if i < |terms| - 1 {
      assert init[i] == terms[i];
      CleanTermsMember(init, i);
    }
  }

  /** A term made only of double quotes and whitespace cleans to the empty string. */
  lemma CleanBlankTerm(t: string)
    requires forall k :: 0 <= k < |t| ==> t[k] == '"' || IsSpace(t[k])
    ensures CleanTerm(t) == []
  {
    var q := RemoveQuotes(t);
    assert AllSpace(q) by {
      forall k | 0 <= k < |q| ensures IsSpace(q[k]) {
        var c := q[k];
        assert multiset(q)[c] > 0;
        assert c in multiset(t);
      }
    }
    var r := Strip(q);
    StripRemovesOuterSpace(q);
  }

  // ---------------------------------------------------------------------------
  // The substring test `sub in s`
  // ---------------------------------------------------------------------------

  predicate OccursAt(s: string, sub: string, i: int) {
    0 <= i && i + |sub| <= |s| && s[i..i + |sub|] == sub
  }

  function ContainsFrom(s: string, sub: string, start: nat): (b: bool)
    ensures b <==> exists i :: start <= i && OccursAt(s, sub, i)
    decreases |s| - start
  {
    if start + |sub| > |s| then false
    else OccursAt(s, sub, start) || ContainsFrom(s, sub, start + 1)
  }

  /** `sub in s` for strings. */
  function Contains(s: string, sub: string): (b: bool)
    ensures b <==> exists i :: OccursAt(s, sub, i)
  {
    ContainsFrom(s, sub, 0)
  }

  // ---------------------------------------------------------------------------
  // re.search(pattern, text, re.IGNORECASE)
  // ---------------------------------------------------------------------------

  predicate WordCharAt(s: string, i: int) {
    0 <= i < |s| && IsWordChar(s[i])
  }

  /** `\b` at position `p`: a word character on exactly one side; outside the text counts as non-word. */
  predicate BoundaryAt(s: string, p: int) {
    WordCharAt(s, p - 1) != WordCharAt(s, p)
  }

  /** What the pattern demands right after the escaped word. */
  datatype Pattern =
    | NotFollowedByLetter  // `\b<word>(?![a-z])`; with IGNORECASE `[a-z]` is every ASCII letter
    | WordBounded          // `\b<word>\b`

  predicate EndAccepted(pat: Pattern, s: string, e: int) {
    match pat
    case NotFollowedByLetter => !(0 <= e < |s| && IsLetter(s[e]))
    case WordBounded => BoundaryAt(s, e)
  }

  /** The pattern built from the literal `word` matches `s` starting at `p`. */
  predicate MatchAt(pat: Pattern, s: string, word: string, p: int) {
    && 0 <= p && p + |word| <= |s|
    && BoundaryAt(s, p)
    && (forall k :: 0 <= k < |word| ==> SameIgnoringCase(s[p + k], word[k]))
    && EndAccepted(pat, s, p + |word|)
  }

  function SearchFrom(pat: Pattern, s: string, word: string, start: nat): (found: bool)
    ensures found <==> exists p :: start <= p && MatchAt(pat, s, word, p)
    decreases |s| - start
  {
    if start + |word| > |s| then false
    else MatchAt(pat, s, word, start) || SearchFrom(pat, s, word, start + 1)
  }

  /** `re.search(pattern(word), s, re.IGNORECASE) is not None`. */
  function Search(pat: Pattern, s: string, word: string): (found: bool)
    ensures found <==> exists p :: MatchAt(pat, s, word, p)
  {
    SearchFrom(pat, s, word, 0)
  }

  /** Every word of a term is found in the text. */
  predicate AllWordsFound(pat: Pattern, text: string, words: seq<string>) {
    forall k :: 0 <= k < |words| ==> Search(pat, text, words[k])
  }

  /**
   * The inner `for word in sub_words` loop shared by the all-words filters: it
   * clears `all_words_found` and records `missing_word` at the first word that
   * is not found, and stops there.
   */
  method FindAllWords(pat: Pattern, text: string, words: seq<string>) returns (allFound: bool, missing: string)
    ensures allFound <==> AllWordsFound(pat, text, words)
    ensures !allFound ==> exists i :: 0 <= i < |words| && missing == words[i] && !Search(pat, text, words[i])
                                      && AllWordsFound(pat, text, words[..i])
  {
    allFound, missing := true, "";
    for i := 0 to |words|
      invariant AllWordsFound(pat, text, words[..i])
    {
      if !Search(pat, text, words[i]) {
        allFound, missing := false, words[i];
        assert AllWordsFound(pat, text, words[..i]);
        break;
      }
      assert words[..i + 1] == words[..i] + [words[i]];
    }
    if allFound {
      assert words[..|words|] == words;
    }
  }

  /** `f"{title} {body} {url}"`: the text every filter searches. */
  function CombinedText(title: string, body: string, url: string): (text: string)
    ensures |text| == |title| + |body| + |url| + 2
    ensures text[..|title|] == title && text[|title|] == ' '
    ensures text[|title| + 1..|title| + 1 + |body|] == body && text[|title| + 1 + |body|] == ' '
    ensures text[|text| - |url|..] == url
  {
    title + " " + body + " " + url
  }
}
