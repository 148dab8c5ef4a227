/**
 * `deep_dive_search(name, extra_info)`: the fixed plan of twelve queries over
 * five categories, the required terms every query is filtered with, the
 * merge of each task's findings into its category, and the per-category
 * de-duplication by URL.
 *
 * The thread pool is modelled by its only observable effect: the order in
 * which the twelve tasks complete, a permutation of the task indices given as
 * an input. The tasks are then run and merged one after the other in that order.
 */
module DeepDive {
  import opened Sequences
  import opened TextMatch
  import opened Providers
  import opened SearchLogic

  datatype Category = SocialProfiles | Documents | News | Mentions | General

  /** The dictionary key of each category. */
  function Label(c: Category): string {
    match c
    case SocialProfiles => "Social Profiles"
    case Documents => "Documents"
    case News => "News"
    case Mentions => "Mentions"
    case General => "General"
  }

  const AllCategories: set<Category> := {SocialProfiles, Documents, News, Mentions, General}

  lemma EveryCategory(c: Category)
    ensures c in AllCategories
  {
    match c
    case SocialProfiles =>
    case Documents =>
    case News =>
    case Mentions =>
    case General =>
  }

  /** The `i`-th key of the query table (and of `structured_results`). */
  function CategoryAt(i: nat): Category
    requires i < 5
  {
    if i == 0 then SocialProfiles
    else if i == 1 then Documents
    else if i == 2 then News
    else if i == 3 then Mentions
    else General
  }

  // ---------------------------------------------------------------------------
  // Queries and required terms
  // ---------------------------------------------------------------------------

  /** `f"{name}"`, followed by `f" {extra_info}"` when `extra_info` is not empty. */
  function BaseQuery(name: string, extraInfo: string): (q: string)
    ensures |q| >= |name| && q[..|name|] == name
    ensures extraInfo == [] <==> q == name
    ensures extraInfo != [] ==> q[|name|] == ' ' && q[|name| + 1..] == extraInfo
  {
    if extraInfo != [] then
      var q := name + " " + extraInfo;
      assert q[|name| + 1..] == extraInfo;
      q
    else name
  }

  /** `f'{base_query} {operator}'`: the base query narrowed by a search operator. */
  function Narrowed(base: string, operator: string): (q: string)
    ensures Narrows(q, base)
  {
    var q := base + " " + operator;
    assert q[..|base| + 1] == base + " ";
    q
  }

  /** The search operators that narrow the base query in each category of the query table. */
  function Operators(c: Category): seq<string> {
    match c
    case SocialProfiles => ["site:linkedin.com", "site:instagram.com", "site:facebook.com", "site:twitter.com",
                            "site:github.com"]
    case Documents => ["resume filetype:pdf", "cv filetype:pdf", "resume OR cv"]
    case News => ["news", "latest article"]
    case Mentions => ["-site:linkedin.com -site:instagram.com -site:facebook.com -site:twitter.com"]
    case General => []
  }

  /**
   * The queries of one category, in table order: the base query narrowed by each
   * operator, except for the general category, whose only query is the bare name.
   */
  function CategoryQueries(c: Category, base: string, name: string): (queries: seq<string>)
    ensures c == General ==> queries == [name]
    ensures c != General ==> |queries| == |Operators(c)|
    ensures c != General ==> forall i :: 0 <= i < |queries| ==> queries[i] == Narrowed(base, Operators(c)[i])
  {
    if c == General then [name]
    else seq(|Operators(c)|, i requires 0 <= i < |Operators(c)| => Narrowed(base, Operators(c)[i]))
  }

  /** One entry of `query_tasks`. */
  datatype Task = Task(query: string, category: Category)

  /** The tasks of one category: its queries in order, each tagged with the category. */
  function TasksFor(queries: seq<string>, c: Category): (tasks: seq<Task>)
    ensures |tasks| == |queries|
    ensures forall i :: 0 <= i < |queries| ==> tasks[i] == Task(queries[i], c)
  {
    seq(|queries|, i requires 0 <= i < |queries| => Task(queries[i], c))
  }

  /** The query table: the `categories` dictionary built for one search. */
  function QueryTable(base: string, name: string): Category -> seq<string> {
    c => CategoryQueries(c, base, name)
  }

  /** `query_tasks` after the nested loop has visited the first `n` keys of `table`. */
  function Flatten(table: Category -> seq<string>, n: nat): seq<Task>
    requires n <= 5
  {
    if n == 0 then []
    else Flatten(table, n - 1) + TasksFor(table(CategoryAt(n - 1)), CategoryAt(n - 1))
  }

  /** `query_tasks` for a search for `name` and `extra_info`. */
  function QueryTasks(name: string, extraInfo: string): (tasks: seq<Task>)
    ensures |tasks| == 12
  {
    PlanShape(name, extraInfo);
    Flatten(QueryTable(BaseQuery(name, extraInfo), name), 5)
  }

  /** The nested `for category, queries in categories.items(): for q in queries` loop. */
  method FlattenTable(table: Category -> seq<string>) returns (tasks: seq<Task>)
    ensures tasks == Flatten(table, 5)
  {
    tasks := [];
    for i := 0 to 5
      invariant tasks == Flatten(table, i)
    {
      var c := CategoryAt(i);
      var queries := table(c);
      for j := 0 to |queries|
        invariant tasks == Flatten(table, i) + TasksFor(queries[..j], c)
      {
        assert TasksFor(queries[..j + 1], c) == TasksFor(queries[..j], c) + [Task(queries[j], c)];
        tasks := tasks + [Task(queries[j], c)];
      }
      assert queries[..|queries|] == queries;
    }
  }

  /**
   * Twelve tasks in table order: five social-profile queries, three document
   * queries, two news queries, one mentions query, and the bare name as the
   * general query; every other query is the base query narrowed by an operator.
   */
  ghost predicate PlannedShape(tasks: seq<Task>, base: string, name: string) {
    && |tasks| == 12
    && (forall i :: 0 <= i < 5 ==> tasks[i].category == SocialProfiles)
    && (forall i :: 5 <= i < 8 ==> tasks[i].category == Documents)
    && (forall i :: 8 <= i < 10 ==> tasks[i].category == News)
    && tasks[10].category == Mentions
    && tasks[11] == Task(name, General)
    && (forall i :: 0 <= i < 11 ==> Narrows(tasks[i].query, base))
  }

  /** `query` is the base query followed by a space and more. */
  predicate Narrows(query: string, base: string) {
    |query| > |base| && query[..|base| + 1] == base + " "
  }

  /** Every query of `queries` narrows the base query. */
  predicate AllNarrow(queries: seq<string>, base: string) {
    forall i :: 0 <= i < |queries| ==> Narrows(queries[i], base)
  }

  /** Visiting key `n` appends its queries, each tagged with the key, after the tasks so far. */
  lemma FlattenAt(table: Category -> seq<string>, n: nat, j: nat)
    requires n < 5 && j < |table(CategoryAt(n))|
    ensures |Flatten(table, n + 1)| == |Flatten(table, n)| + |table(CategoryAt(n))|
    ensures Flatten(table, n + 1)[|Flatten(table, n)| + j] == Task(table(CategoryAt(n))[j], CategoryAt(n))
  {
  }

  /** Visiting later keys leaves the tasks so far in place. */
  lemma {:induction false} FlattenKeeps(table: Category -> seq<string>, n: nat, m: nat, i: nat)
    requires n <= m <= 5
    ensures |Flatten(table, n)| <= |Flatten(table, m)|
    ensures i < |Flatten(table, n)| ==> Flatten(table, m)[i] == Flatten(table, n)[i]
    decreases m - n
  {
    if n < m {
      FlattenKeeps(table, n, m - 1, i);
    }
  }

  /** The block of key `n` in the whole plan: its queries, in order, each tagged with the key. */
  lemma FlattenBlock(table: Category -> seq<string>, n: nat, base: string)
    requires n < 5 && AllNarrow(table(CategoryAt(n)), base)
    ensures var lo, hi := |Flatten(table, n)|, |Flatten(table, n + 1)|;
            && hi == lo + |table(CategoryAt(n))| <= |Flatten(table, 5)|
            && forall i :: lo <= i < hi ==>
                 Flatten(table, 5)[i].category == CategoryAt(n) && Narrows(Flatten(table, 5)[i].query, base)
  {
    var lo := |Flatten(table, n)|;
    var tasks := Flatten(table, 5);
    FlattenKeeps(table, n + 1, 5, 0);
    forall i | lo <= i < |Flatten(table, n + 1)|
      ensures tasks[i].category == CategoryAt(n) && Narrows(tasks[i].query, base)
    {
      FlattenAt(table, n, i - lo);
      FlattenKeeps(table, n + 1, 5, i);
    }
  }

  /** Flattening a table with 5, 3, 2 and 1 narrowed queries and the bare name yields the planned shape. */
  lemma FlattenShape(table: Category -> seq<string>, base: string, name: string)
    requires |table(SocialProfiles)| == 5 && |table(Documents)| == 3 && |table(News)| == 2
    requires |table(Mentions)| == 1 && table(General) == [name]
    requires AllNarrow(table(SocialProfiles), base) && AllNarrow(table(Documents), base)
    requires AllNarrow(table(News), base) && AllNarrow(table(Mentions), base)
    ensures PlannedShape(Flatten(table, 5), base, name)
  {
    assert |Flatten(table, 0)| == 0;
    FlattenAt(table, 0, 0);
    FlattenAt(table, 1, 0);
    FlattenAt(table, 2, 0);
    FlattenAt(table, 3, 0);
    FlattenAt(table, 4, 0);
    FlattenBlock(table, 0, base);
    FlattenBlock(table, 1, base);
    FlattenBlock(table, 2, base);
    FlattenBlock(table, 3, base);
  }

  /** Every query of a narrowed category extends the base query. */
  lemma CategoryNarrows(c: Category, base: string, name: string)
    requires c != General
    ensures AllNarrow(CategoryQueries(c, base, name), base)
  {
  }

  lemma OperatorCounts()
    ensures |Operators(SocialProfiles)| == 5 && |Operators(Documents)| == 3
    ensures |Operators(News)| == 2 && |Operators(Mentions)| == 1
  {
  }

  /** The plan of every search has the planned shape. */
  lemma PlanShape(name: string, extraInfo: string)
    ensures PlannedShape(Flatten(QueryTable(BaseQuery(name, extraInfo), name), 5), BaseQuery(name, extraInfo), name)
  {
    var base := BaseQuery(name, extraInfo);
    var table := QueryTable(base, name);
    OperatorCounts();
    CategoryNarrows(SocialProfiles, base, name);
    CategoryNarrows(Documents, base, name);
    CategoryNarrows(News, base, name);
    CategoryNarrows(Mentions, base, name);
    FlattenShape(table, base, name);
  }

  /** `terms = [name]`, followed by `extra_info` when it is not empty. */
  function RequiredTerms(name: string, extraInfo: string): (terms: seq<string>)
    ensures 1 <= |terms| <= 2 && terms[0] == name
    ensures |terms| == 2 <==> extraInfo != []
    ensures |terms| == 2 ==> terms[1] == extraInfo
  {
    if extraInfo != [] then [name, extraInfo] else [name]
  }

  // ---------------------------------------------------------------------------
  // Merging the findings of the tasks
  // ---------------------------------------------------------------------------

  /** What `future.result()` yields: the task's category and its findings. */
  type Arrival = (Category, seq<Finding>)

  /** The findings gathered for `c`: those of the arrivals of category `c`, in arrival order. */
  function Gathered(arrivals: seq<Arrival>, c: Category): seq<Finding>
    decreases |arrivals|
  {
    if arrivals == [] then []
    else
      var last := arrivals[|arrivals| - 1];
      Gathered(arrivals[..|arrivals| - 1], c) + (if last.0 == c then last.1 else [])
  }

  /** The `as_completed` loop: every non-empty list of findings extends its category. */
  method Aggregate(arrivals: seq<Arrival>) returns (structured: map<Category, seq<Finding>>)
    ensures structured.Keys == AllCategories
    ensures forall c :: c in structured ==> structured[c] == Gathered(arrivals, c)
  {
    structured := map[SocialProfiles := [], Documents := [], News := [], Mentions := [], General := []];
    for i := 0 to |arrivals|
      invariant structured.Keys == AllCategories
      invariant forall c :: c in structured ==> structured[c] == Gathered(arrivals[..i], c)
    {
      var (category, findings) := arrivals[i];
      assert arrivals[..i + 1][..i] == arrivals[..i];
      EveryCategory(category);
      if findings != [] {
        structured := structured[category := structured[category] + findings];
      }
    }
    assert arrivals[..|arrivals|] == arrivals;
  }

  /** A finding is gathered for `c` iff some arrival of category `c` brought it. */
  lemma {:induction false} GatheredExactly(arrivals: seq<Arrival>, c: Category, x: Finding)
    ensures x in Gathered(arrivals, c) <==> exists k :: 0 <= k < |arrivals| && arrivals[k].0 == c && x in arrivals[k].1
    decreases |arrivals|
  {
    if arrivals != [] {
      var init := arrivals[..|arrivals| - 1];
      GatheredExactly(init, c, x);
      assert forall k :: 0 <= k < |init| ==> init[k] == arrivals[k];
    }
  }

  // ---------------------------------------------------------------------------
  // De-duplication by URL
  // ---------------------------------------------------------------------------

  /** The URLs of `items`. */
  function UrlSet(items: seq<Finding>): set<string>
    decreases |items|
  {
    if items == [] then {} else UrlSet(items[..|items| - 1]) + {items[|items| - 1].url}
  }

  /** `unique_results` for `items`: each item whose URL no earlier item carries. */
  function FirstByUrl(items: seq<Finding>): seq<Finding>
    decreases |items|
  {
    if items == [] then []
    else
      var init, last := items[..|items| - 1], items[|items| - 1];
      FirstByUrl(init) + (if last.url in UrlSet(init) then [] else [last])
  }

  /** The loop over one category's list with the `seen_urls` set. */
  method UniqueByUrl(items: seq<Finding>) returns (unique: seq<Finding>)
    ensures unique == FirstByUrl(items)
  {
    unique := [];
    var seen: set<string> := {};
    for i := 0 to |items|
      invariant unique == FirstByUrl(items[..i])
      invariant seen == UrlSet(items[..i])
    {
      assert items[..i + 1][..i] == items[..i];
      if items[i].url !in seen {
        unique := unique + [items[i]];
        seen := seen + {items[i].url};
      }
    }
    assert items[..|items|] == items;
  }

  /**
   * The `for category in structured_results` loop: each list replaced by its
   * de-duplicated form. The categories are independent, so the order in which
   * the keys are visited does not matter.
   */
  method DedupBuckets(structured: map<Category, seq<Finding>>) returns (deduped: map<Category, seq<Finding>>)
    ensures deduped.Keys == structured.Keys
    ensures forall c :: c in deduped ==> deduped[c] == FirstByUrl(structured[c])
  {
    deduped := structured;
    var todo := structured.Keys;
    while todo != {}
      invariant todo <= structured.Keys && deduped.Keys == structured.Keys
      invariant forall c :: c in deduped ==> deduped[c] == if c in todo then structured[c] else FirstByUrl(structured[c])
      decreases |todo|
    {
      var c :| c in todo;
      var unique := UniqueByUrl(deduped[c]);
      deduped := deduped[c := unique];
      todo := todo - {c};
    }
  }

  lemma {:induction false} UrlSetMembers(items: seq<Finding>, u: string)
    ensures u in UrlSet(items) <==> exists i :: 0 <= i < |items| && items[i].url == u
    decreases |items|
  {
    if items != [] {
      var init := items[..|items| - 1];
      UrlSetMembers(init, u);
      assert forall i :: 0 <= i < |init| ==> init[i] == items[i];
    }
  }

  /** De-duplication loses no URL: the survivors carry exactly the URLs of the input. */
  lemma {:induction false} DedupKeepsEveryUrl(items: seq<Finding>)
    ensures UrlSet(FirstByUrl(items)) == UrlSet(items)
    decreases |items|
  {
    if items != [] {
      var init, last := items[..|items| - 1], items[|items| - 1];
      DedupKeepsEveryUrl(init);
      var before := FirstByUrl(init);
      if last.url !in UrlSet(init) {
        var after := before + [last];
        assert after[..|after| - 1] == before;
        assert FirstByUrl(items) == after;
        assert UrlSet(after) == UrlSet(before) + {last.url};
      } else {
        assert FirstByUrl(items) == before;
      }
    }
  }

  /** No two survivors share a URL. */
  lemma {:induction false} DedupDistinctUrls(items: seq<Finding>)
    ensures var r := FirstByUrl(items); forall i, j :: 0 <= i < j < |r| ==> r[i].url != r[j].url
    decreases |items|
  {
    if items != [] {
      var init, last := items[..|items| - 1], items[|items| - 1];
      DedupDistinctUrls(init);
      var before := FirstByUrl(init);
      if last.url !in UrlSet(init) {
        DedupKeepsEveryUrl(init);
        var r := before + [last];
        assert FirstByUrl(items) == r;
        forall i, j | 0 <= i < j < |r| ensures r[i].url != r[j].url {
          if j == |before| {
            UrlSetMembers(before, before[i].url);
          } else {
            assert r[i] == before[i] && r[j] == before[j];
          }
        }
      } else {
        assert FirstByUrl(items) == before;
      }
    }
  }

  /** The survivors keep their relative order. */
  lemma {:induction false} DedupKeepsOrder(items: seq<Finding>)
    ensures IsSubsequence(FirstByUrl(items), items)
    decreases |items|
  {
    if items != [] {
      var init, last := items[..|items| - 1], items[|items| - 1];
      DedupKeepsOrder(init);
      SubsequenceExtend(FirstByUrl(init), init, last, last.url !in UrlSet(init));
      assert init + [last] == items;
      if last.url in UrlSet(init) {
        assert FirstByUrl(items) == FirstByUrl(init);
      }
    }
  }

  /** The first item carrying a URL always survives. */
  lemma {:induction false} DedupKeepsFirst(items: seq<Finding>, i: nat)
    requires i < |items| && items[i].url !in UrlSet(items[..i])
    ensures items[i] in FirstByUrl(items)
    decreases |items|
  {
    var init := items[..|items| - 1];
    if i < |items| - 1 {
      assert init[..i] == items[..i];
      DedupKeepsFirst(init, i);
    } else {
      assert init == items[..i];
    }
  }

  // ---------------------------------------------------------------------------
  // The whole search
  // ---------------------------------------------------------------------------

  /** The twelve tasks complete in `order`: every task index exactly once. */
  predicate IsCompletionOrder(order: seq<nat>, n: nat) {
    && |order| == n
    && (forall k :: 0 <= k < |order| ==> order[k] < n)
    && (forall k, l :: 0 <= k < l < |order| ==> order[k] != order[l])
  }

  /** What the futures yield, in completion order, when task queries are searched with `search`. */
  function Arrivals(tasks: seq<Task>, search: string -> seq<Finding>, order: seq<nat>): (arrivals: seq<Arrival>)
    requires forall k :: 0 <= k < |order| ==> order[k] < |tasks|
    ensures |arrivals| == |order|
    ensures forall k :: 0 <= k < |order| ==>
              arrivals[k] == (tasks[order[k]].category, search(tasks[order[k]].query))
  {
    seq(|order|, k requires 0 <= k < |order| => (tasks[order[k]].category, search(tasks[order[k]].query)))
  }

  /** `structured_results[c]` after the merge and the de-duplication. */
  function Bucket(arrivals: seq<Arrival>, c: Category): seq<Finding> {
    FirstByUrl(Gathered(arrivals, c))
  }

  /** `perform_search(query, required_terms=terms)` for every query, with its default three attempts. */
  function Searcher(provider: (string, nat) -> Outcome<DdgHit>, terms: seq<string>): string -> seq<Finding> {
    q => SearchResults(provider, q, terms, 3)
  }

  /** The same search, as written. */
  function SearcherAsWritten(provider: (string, nat) -> Outcome<DdgHit>, terms: seq<string>): string -> seq<Finding> {
    q => SearchAsWritten(provider, q, terms, 3)
  }

  /**
   * The thread pool: every task's query searched with the required terms, the
   * `(category, findings)` pairs collected in completion order. `perform_search`
   * catches every error itself, so no task raises.
   */
  method RunTasks(provider: (string, nat) -> Outcome<DdgHit>, tasks: seq<Task>, terms: seq<string>, order: seq<nat>)
    returns (arrivals: seq<Arrival>)
    requires forall k :: 0 <= k < |order| ==> order[k] < |tasks|
    ensures arrivals == Arrivals(tasks, Searcher(provider, terms), order)
  {
    ghost var search := Searcher(provider, terms);
    arrivals := [];
    for k := 0 to |order|
      invariant arrivals == Arrivals(tasks, search, order[..k])
    {
      var task := tasks[order[k]];
      var findings := PerformSearch(provider, task.query, terms, 3);
      arrivals := arrivals + [(task.category, findings)];
    }
    assert order[..|order|] == order;
  }

  /**
   * `deep_dive_search(name, extra_info)`; `provider(query, k)` is what the
   * search provider returns for `query` on attempt `k`, and `order` the order in
   * which the tasks complete.
   */
  method DeepDiveSearch(provider: (string, nat) -> Outcome<DdgHit>, name: string, extraInfo: string, order: seq<nat>)
    returns (structured: map<Category, seq<Finding>>)
    requires IsCompletionOrder(order, 12)
    ensures structured.Keys == AllCategories
    ensures forall c :: c in structured ==>
              structured[c] == Bucket(Arrivals(QueryTasks(name, extraInfo), Searcher(provider, RequiredTerms(name, extraInfo)),
                                               order), c)
  {
    var base := name;
    if extraInfo != [] {
      base := base + " " + extraInfo;
    }
    var tasks := FlattenTable(QueryTable(base, name));
    assert tasks == QueryTasks(name, extraInfo);
    var terms := RequiredTerms(name, extraInfo);
    var arrivals := RunTasks(provider, tasks, terms, order);
    var merged := Aggregate(arrivals);
    structured := DedupBuckets(merged);
    assert arrivals == Arrivals(QueryTasks(name, extraInfo), Searcher(provider, RequiredTerms(name, extraInfo)), order);
  }

  /**
   * Whatever the completion order, each category holds only findings its own
   * tasks returned, in arrival order, none twice under the same URL, and every
   * URL that was gathered for it.
   */
  lemma DeepDiveShape(arrivals: seq<Arrival>, c: Category)
    ensures var r := Bucket(arrivals, c); forall i, j :: 0 <= i < j < |r| ==> r[i].url != r[j].url
    ensures IsSubsequence(Bucket(arrivals, c), Gathered(arrivals, c))
    ensures UrlSet(Bucket(arrivals, c)) == UrlSet(Gathered(arrivals, c))
    ensures forall x :: x in Bucket(arrivals, c) ==>
              exists k :: 0 <= k < |arrivals| && arrivals[k].0 == c && x in arrivals[k].1
  {
    var g := Gathered(arrivals, c);
    DedupDistinctUrls(g);
    DedupKeepsOrder(g);
    DedupKeepsEveryUrl(g);
    forall x | x in Bucket(arrivals, c)
      ensures exists k :: 0 <= k < |arrivals| && arrivals[k].0 == c && x in arrivals[k].1
    {
      SubsequenceMembers(FirstByUrl(g), g, x);
      GatheredExactly(arrivals, c, x);
    }
  }

  /**
   * With the search as written every category comes back empty, whatever the
   * tasks and their completion order: every search is given the name as a
   * required term.
   */
  lemma DeepDiveAsWrittenFindsNothing(provider: (string, nat) -> Outcome<DdgHit>, name: string, extraInfo: string,
                                      tasks: seq<Task>, order: seq<nat>, c: Category)
    requires forall k :: 0 <= k < |order| ==> order[k] < |tasks|
    ensures Bucket(Arrivals(tasks, SearcherAsWritten(provider, RequiredTerms(name, extraInfo)), order), c) == []
  {
    var terms := RequiredTerms(name, extraInfo);
    var arrivals := Arrivals(tasks, SearcherAsWritten(provider, terms), order);
    var g := Gathered(arrivals, c);
    if g != [] {
      var x := g[0];
      GatheredExactly(arrivals, c, x);
      var k :| 0 <= k < |arrivals| && arrivals[k].0 == c && x in arrivals[k].1;
      AsWrittenKeepsNothing(provider, tasks[order[k]].query, terms, 3);
      assert false;
    }
  }
}
