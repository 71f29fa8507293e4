/**
 * The knowledge-base relevance scorer `searchKnowledgeBase` and its top-3
 * wrapper `getLLMSuggestions`.
 *
 * The pure functions below are the specification: `Score` is the relevance of
 * one article, `Candidates` the kept articles in collection order and
 * `SortDesc` the stable descending sort that `Array.prototype.sort` performs.
 * The methods follow the source's loops and its in-place sort and are proved
 * equal to them.
 */
module Nlp {
  import opened Wrappers
  import opened Text
  import opened KnowledgeBase

  // ---------------------------------------------------------------- scoring

  /** `query.toLowerCase().split(/\s+/)`. */
  function Tokenize(query: string): (r: seq<string>)
    ensures |r| >= 1
  {
    SplitWhitespace(LowerStr(query))
  }

  /** `tags.map(t => t.toLowerCase())`. */
  function LowerTags(tags: seq<string>): (r: seq<string>)
    ensures |r| == |tags|
    ensures forall i :: 0 <= i < |tags| ==> r[i] == LowerStr(tags[i])
  {
    if tags == [] then [] else [LowerStr(tags[0])] + LowerTags(tags[1..])
  }

  /** What one token adds: 3 for a title hit, 1 for a description hit, 2 for an exact tag. */
  function TokenScore(token: string, title: string, content: string, tags: seq<string>): (r: nat)
    ensures r <= 6
    ensures r == 0 <==> !Contains(title, token) && !Contains(content, token) && token !in tags
    ensures r == 6 <==> Contains(title, token) && Contains(content, token) && token in tags
    ensures r % 2 == 1 <==> (Contains(title, token) != Contains(content, token))
  {
    (if Contains(title, token) then 3 else 0)
    + (if Contains(content, token) then 1 else 0)
    + (if token in tags then 2 else 0)
  }

  /** The token contributions summed over the token list, repeats included. */
  function TokensScore(tokens: seq<string>, title: string, content: string, tags: seq<string>): (r: nat)
    ensures r <= 6 * |tokens|
  {
    if tokens == [] then 0
    else TokensScore(tokens[..|tokens| - 1], title, content, tags)
         + TokenScore(tokens[|tokens| - 1], title, content, tags)
  }

  /** 2 when the article's module equals the selected module ignoring case (an empty selection is not special). */
  function ModuleBonus(a: Article, selected: string): (r: nat)
    ensures r == 0 || r == 2
    ensures selected == a.moduleName ==> r == 2
    ensures selected == "" ==> (r == 2 <==> a.moduleName == "")
  {
    if LowerStr(a.moduleName) == LowerStr(selected) then 2 else 0
  }

  /** The relevance of one article for the tokens and the module. */
  function Score(a: Article, tokens: seq<string>, selected: string): (r: nat)
    ensures r <= 2 + 6 * |tokens|
  {
    ModuleBonus(a, selected)
    + TokensScore(tokens, LowerStr(a.title), LowerStr(a.description), LowerTags(a.tags))
  }

  /** `{ ...article, score }`: a copy of the article with only `score` set. */
  function WithScore(a: Article, s: int): (r: Article)
    ensures r.score == Some(s) && Key(r) == s
    ensures r.(score := a.score) == a
  {
    a.(score := Some(s))
  }

  /** An article survives the scan: published and scoring more than 2. */
  predicate Kept(a: Article, tokens: seq<string>, selected: string)
    ensures Kept(a, tokens, selected) ==> a.status == Published && |tokens| >= 1
    ensures Kept(a, tokens, selected) ==>
      TokensScore(tokens, LowerStr(a.title), LowerStr(a.description), LowerTags(a.tags)) >= 1
  {
    a.status == Published && Score(a, tokens, selected) > 2
  }

  /** The kept articles, scored, in collection order (the `results` array before sorting). */
  function Candidates(kb: seq<Article>, tokens: seq<string>, selected: string): (r: seq<Article>)
    ensures |r| <= |kb|
  {
    if kb == [] then []
    else
      var a := kb[|kb| - 1];
      Candidates(kb[..|kb| - 1], tokens, selected)
      + (if Kept(a, tokens, selected) then [WithScore(a, Score(a, tokens, selected))] else [])
  }

  // ---------------------------------------------------------------- sorting

  /** The sort key `(a.score || 0)`. */
  function Key(a: Article): (r: int)
    ensures a.score == None ==> r == 0
    ensures a.score == Some(r) || a.score == None
  {
    a.score.GetOr(0)
  }

  /** Non-increasing by key. */
  predicate Sorted(s: seq<Article>) {
    forall i, j :: 0 <= i < j < |s| ==> Key(s[i]) >= Key(s[j])
  }

  /** Inserts `x` after every element whose key is at least `x`'s, scanning from the end. */
  function Insert(s: seq<Article>, x: Article): (r: seq<Article>)
    ensures |r| == |s| + 1
  {
    if s == [] then [x]
    else if Key(s[|s| - 1]) < Key(x) then Insert(s[..|s| - 1], x) + [s[|s| - 1]]
    else s + [x]
  }

  /** Stable insertion sort by descending key: the order `Array.prototype.sort` gives for this comparator. */
  function SortDesc(s: seq<Article>): (r: seq<Article>)
    ensures |r| == |s|
  {
    if s == [] then [] else Insert(SortDesc(s[..|s| - 1]), s[|s| - 1])
  }

  /** The elements whose key is `k`, in their order. */
  function WithKey(s: seq<Article>, k: int): seq<Article> {
    if s == [] then []
    else WithKey(s[..|s| - 1], k) + (if Key(s[|s| - 1]) == k then [s[|s| - 1]] else [])
  }

  // ---------------------------------------------------------------- search

  /** The articles `searchKnowledgeBase` returns for already tokenised input. */
  function Ranked(kb: seq<Article>, tokens: seq<string>, selected: string): seq<Article> {
    SortDesc(Candidates(kb, tokens, selected))
  }

  /** The articles `searchKnowledgeBase(query, module)` returns over the collection `kb`. */
  function Search(kb: seq<Article>, query: string, selected: string): (r: seq<Article>)
    ensures |r| <= |kb|
    ensures |r| == |Candidates(kb, Tokenize(query), selected)|
  {
    Ranked(kb, Tokenize(query), selected)
  }

  /** The score loop of one article: the module check, then each token in turn. */
  method ScoreArticle(a: Article, tokens: seq<string>, selected: string) returns (score: nat)
    ensures score == Score(a, tokens, selected)
  {
    var title := LowerStr(a.title);
    var content := LowerStr(a.description);
    var tags := LowerTags(a.tags);
    score := 0;
    if LowerStr(a.moduleName) == LowerStr(selected) {
      score := score + 2;
    }
    var i := 0;
    while i < |tokens|
      invariant 0 <= i <= |tokens|
      invariant score == ModuleBonus(a, selected) + TokensScore(tokens[..i], title, content, tags)
    {
      var token := tokens[i];
      if Contains(title, token) {
        score := score + 3;
      }
      if Contains(content, token) {
        score := score + 1;
      }
      if token in tags {
        score := score + 2;
      }
      assert tokens[..i + 1][..i] == tokens[..i];
      i := i + 1;
    }
    assert tokens[..|tokens|] == tokens;
  }

  /**
   * Where insertion puts `x`: right after the last position `j` whose key is
   * at least `x`'s, when every later key is smaller.
   */
  lemma {:induction false} InsertAt(s: seq<Article>, j: int, x: Article)
    requires 0 <= j <= |s| && (j == 0 || Key(s[j - 1]) >= Key(x))
    requires forall k :: j <= k < |s| ==> Key(s[k]) < Key(x)
    ensures Insert(s, x) == s[..j] + [x] + s[j..]
    decreases |s|
  {
    if |s| == j {
      assert s[..j] == s && s[j..] == [];
    } else {
      var init := s[..|s| - 1];
      InsertAt(init, j, x);
      assert init[..j] == s[..j];
      assert init[j..] + [s[|s| - 1]] == s[j..];
    }
  }

  /** One step of the shifting loop, read on sequences: the element left of the gap moves into it. */
  lemma ShiftStep(b: seq<Article>, sorted: seq<Article>, rest: seq<Article>, j: int)
    requires 0 < j <= |sorted| && |b| == |sorted| + 1 + |rest|
    requires b[..j] == sorted[..j] && b[j + 1..] == sorted[j..] + rest
    ensures b[j := b[j - 1]][..j - 1] == sorted[..j - 1]
    ensures b[j := b[j - 1]][j..] == sorted[j - 1..] + rest
  {
    var c := b[j := b[j - 1]];
    assert b[j - 1] == sorted[j - 1];
    assert c[j..] == [sorted[j - 1]] + b[j + 1..];
    assert sorted[j - 1..] == [sorted[j - 1]] + sorted[j..];
  }

  /** The final write of the shifting loop, read on sequences: `x` fills the gap. */
  lemma Placed(b: seq<Article>, sorted: seq<Article>, rest: seq<Article>, j: int, x: Article)
    requires 0 <= j <= |sorted| && |b| == |sorted| + 1 + |rest|
    requires b[..j] == sorted[..j] && b[j + 1..] == sorted[j..] + rest
    ensures b[j := x][..|sorted| + 1] == sorted[..j] + [x] + sorted[j..]
    ensures b[j := x][|sorted| + 1..] == rest
  {
    var c := b[j := x];
    assert c == b[..j] + [x] + b[j + 1..];
  }

  /** Inserts `a[i]` into the sorted prefix `a[..i]`, shifting larger-indexed smaller keys right. */
  method InsertInto(a: array<Article>, i: int)
    requires 0 <= i < a.Length
    modifies a
    ensures a[..i + 1] == Insert(old(a[..i]), old(a[i]))
    ensures a[i + 1..] == old(a[i + 1..])
  {
    ghost var sorted := a[..i];
    ghost var rest := a[i + 1..];
    var x := a[i];
    var j := i;
    while j > 0 && Key(a[j - 1]) < Key(x)
      invariant 0 <= j <= i
      invariant a[..j] == sorted[..j]
      invariant a[j + 1..] == sorted[j..] + rest
      invariant forall k :: j <= k < i ==> Key(sorted[k]) < Key(x)
    {
      ShiftStep(a[..], sorted, rest, j);
      a[j] := a[j - 1];
      j := j - 1;
    }
    Placed(a[..], sorted, rest, j, x);
    a[j] := x;
    InsertAt(sorted, j, x);
  }

  /** `results.sort((a, b) => (b.score || 0) - (a.score || 0))`, in place, as a stable insertion sort. */
  method SortByScore(a: array<Article>)
    modifies a
    ensures a[..] == SortDesc(old(a[..]))
  {
    ghost var orig := a[..];
    var i := 0;
    while i < a.Length
      invariant 0 <= i <= a.Length
      invariant a[..i] == SortDesc(orig[..i])
      invariant a[i..] == orig[i..]
    {
      assert a[i] == orig[i];
      InsertInto(a, i);
      assert orig[..i + 1][..i] == orig[..i];
      i := i + 1;
    }
    assert a[..] == a[..a.Length] && orig == orig[..a.Length];
  }

  /** `searchKnowledgeBase`: scan the collection, keep and score, then sort. */
  method SearchKnowledgeBase(kb: seq<Article>, query: string, selected: string)
    returns (results: seq<Article>)
    ensures results == Search(kb, query, selected)
  {
    var tokens := Tokenize(query);
    results := [];
    var i := 0;
    while i < |kb|
      invariant 0 <= i <= |kb|
      invariant results == Candidates(kb[..i], tokens, selected)
    {
      var article := kb[i];
      if article.status == Published {
        var score := ScoreArticle(article, tokens, selected);
        if score > 2 {
          results := results + [WithScore(article, score)];
        }
      }
      assert kb[..i + 1][..i] == kb[..i];
      i := i + 1;
    }
    assert kb[..|kb|] == kb;
    var sorted := new Article[|results|](j requires 0 <= j < |results| => results[j]);
    assert sorted[..] == results;
    SortByScore(sorted);
    results := sorted[..];
  }

  /** `getLLMSuggestions`: the first three results of the search, or all of them when fewer. */
  method GetLLMSuggestions(kb: seq<Article>, description: string, selected: string)
    returns (suggestions: seq<Article>)
    ensures |suggestions| == if |Search(kb, description, selected)| < 3 then |Search(kb, description, selected)| else 3
    ensures suggestions == Search(kb, description, selected)[..|suggestions|]
  {
    var relevant := SearchKnowledgeBase(kb, description, selected);
    suggestions := if |relevant| < 3 then relevant else relevant[..3];
  }

  // ---------------------------------------------------------------- properties of the score

  /** The token sum splits over a concatenated token list. */
  lemma {:induction false} TokensScoreAppend(a: seq<string>, b: seq<string>, title: string, content: string, tags: seq<string>)
    ensures TokensScore(a + b, title, content, tags) == TokensScore(a, title, content, tags) + TokensScore(b, title, content, tags)
    decreases |b|
  {
    if b == [] {
      assert a + b == a;
    } else {
      assert (a + b)[..|a + b| - 1] == a + b[..|b| - 1];
      TokensScoreAppend(a, b[..|b| - 1], title, content, tags);
    }
  }

  /**
   * The order of the tokens does not matter, only how often each occurs: two
   * token lists with the same multiset of tokens score the same.
   */
  lemma {:induction false} TokensScorePermutation(a: seq<string>, b: seq<string>, title: string, content: string, tags: seq<string>)
    requires multiset(a) == multiset(b)
    ensures TokensScore(a, title, content, tags) == TokensScore(b, title, content, tags)
    decreases |a|
  {
    if a == [] {
      assert |b| == |multiset(b)| == 0;
    } else {
      var x := a[|a| - 1];
      assert x in multiset(b) by { assert a == a[..|a| - 1] + [x]; }
      var j :| 0 <= j < |b| && b[j] == x;
      var rest := b[..j] + b[j + 1..];
      assert b == b[..j] + [x] + b[j + 1..];
      assert a == a[..|a| - 1] + [x];
      assert multiset(b) == multiset(b[..j]) + multiset{x} + multiset(b[j + 1..]);
      assert multiset(rest) == multiset(b[..j]) + multiset(b[j + 1..]);
      assert multiset(a) == multiset(a[..|a| - 1]) + multiset{x};
      assert multiset(a[..|a| - 1]) == multiset(a) - multiset{x};
      assert multiset(rest) == multiset(b) - multiset{x};
      TokensScorePermutation(a[..|a| - 1], rest, title, content, tags);
      TokensScoreAppend(b[..j] + [x], b[j + 1..], title, content, tags);
      TokensScoreAppend(b[..j], [x], title, content, tags);
      TokensScoreAppend(b[..j], b[j + 1..], title, content, tags);
      assert TokensScore([x], title, content, tags) == TokenScore(x, title, content, tags) by {
        assert [x][..0] == [];
      }
    }
  }

  /** Every token of the list contributes at least its own score to the sum. */
  lemma {:induction false} TokensScoreAtLeast(tokens: seq<string>, k: int, title: string, content: string, tags: seq<string>)
    requires 0 <= k < |tokens|
    ensures TokensScore(tokens, title, content, tags) >= TokenScore(tokens[k], title, content, tags)
    decreases |tokens|
  {
    if k < |tokens| - 1 {
      TokensScoreAtLeast(tokens[..|tokens| - 1], k, title, content, tags);
    }
  }

  /** The empty token is a substring of every title and description: it adds 3 + 1 (and 2 more for an empty tag). */
  lemma EmptyTokenAddsFour(tokens: seq<string>, title: string, content: string, tags: seq<string>)
    ensures TokensScore(tokens + [""], title, content, tags)
      == TokensScore(tokens, title, content, tags) + 4 + (if "" in tags then 2 else 0)
  {
    ContainsEmpty(title);
    ContainsEmpty(content);
    assert (tokens + [""])[..|tokens|] == tokens;
  }

  /** Any article scores at least 4 for a token list that holds the empty token. */
  lemma EmptyTokenScoresFour(a: Article, tokens: seq<string>, selected: string)
    requires "" in tokens
    ensures Score(a, tokens, selected) >= 4
  {
    var k :| 0 <= k < |tokens| && tokens[k] == "";
    ContainsEmpty(LowerStr(a.title));
    ContainsEmpty(LowerStr(a.description));
    TokensScoreAtLeast(tokens, k, LowerStr(a.title), LowerStr(a.description), LowerTags(a.tags));
  }

  /**
   * A one-token query keeps a published article exactly when the token hits
   * the title, or two of the weaker signals (module 2, description 1, tag 2)
   * add up to more than 2: a module match alone or a tag alone is not enough.
   */
  lemma SingleTokenKept(a: Article, t: string, selected: string)
    requires a.status == Published
    ensures var title, desc, tag, mod := Contains(LowerStr(a.title), t), Contains(LowerStr(a.description), t),
                                        t in LowerTags(a.tags), ModuleBonus(a, selected) == 2;
      Kept(a, [t], selected) <==> title || (mod && tag) || (desc && (mod || tag))
  {
    assert [t][..0] == [];
  }

  /** An empty token appears exactly for an empty query or one that begins or ends with whitespace. */
  lemma TokenizeEmptyToken(query: string)
    ensures Tokenize("") == [""]
    ensures "" in Tokenize(query) <==> query == [] || IsSpace(query[0]) || IsSpace(query[|query| - 1])
  {
    SplitWhitespaceEmptyToken(LowerStr(query));
  }

  // ---------------------------------------------------------------- properties of the sort

  lemma {:induction false} InsertMultiset(s: seq<Article>, x: Article)
    ensures multiset(Insert(s, x)) == multiset(s) + multiset{x}
    decreases |s|
  {
    if s != [] && Key(s[|s| - 1]) < Key(x) {
      InsertMultiset(s[..|s| - 1], x);
      assert s == s[..|s| - 1] + [s[|s| - 1]];
    }
  }

  /** The sort is a permutation of its input. */
  lemma {:induction false} SortDescPermutation(s: seq<Article>)
    ensures multiset(SortDesc(s)) == multiset(s)
    decreases |s|
  {
    if s != [] {
      var init, last := s[..|s| - 1], s[|s| - 1];
      SortDescPermutation(init);
      InsertMultiset(SortDesc(init), last);
      assert s == init + [last];
      calc {
        multiset(SortDesc(s));
        multiset(Insert(SortDesc(init), last));
        multiset(SortDesc(init)) + multiset{last};
        multiset(init) + multiset{last};
        multiset(s);
      }
    }
  }

  lemma {:induction false} InsertSorted(s: seq<Article>, x: Article)
    requires Sorted(s)
    ensures Sorted(Insert(s, x))
    decreases |s|
  {
    if s != [] && Key(s[|s| - 1]) < Key(x) {
      var init, last := s[..|s| - 1], s[|s| - 1];
      InsertSorted(init, x);
      InsertMultiset(init, x);
      var r := Insert(init, x);
      forall i | 0 <= i < |r| ensures Key(r[i]) >= Key(last) {
        assert r[i] in multiset(init) + multiset{x};
        if r[i] != x {
          var k :| 0 <= k < |init| && init[k] == r[i];
          assert s[k] == init[k];
        }
      }
    }
  }

  /** The sort orders by non-increasing score. */
  lemma {:induction false} SortDescSorted(s: seq<Article>)
    ensures Sorted(SortDesc(s))
    decreases |s|
  {
    if s != [] {
      SortDescSorted(s[..|s| - 1]);
      InsertSorted(SortDesc(s[..|s| - 1]), s[|s| - 1]);
    }
  }

  lemma {:induction false} WithKeyAppend(a: seq<Article>, b: seq<Article>, k: int)
    ensures WithKey(a + b, k) == WithKey(a, k) + WithKey(b, k)
    decreases |b|
  {
    if b == [] {
      assert a + b == a;
    } else {
      assert (a + b)[..|a + b| - 1] == a + b[..|b| - 1];
      WithKeyAppend(a, b[..|b| - 1], k);
    }
  }

  lemma {:induction false} InsertWithKey(s: seq<Article>, x: Article, k: int)
    ensures WithKey(Insert(s, x), k) == WithKey(s, k) + (if Key(x) == k then [x] else [])
    decreases |s|
  {
    if s == [] {
      assert [x][..0] == [];
    } else if Key(s[|s| - 1]) < Key(x) {
      InsertWithKey(s[..|s| - 1], x, k);
      var r := Insert(s[..|s| - 1], x);
      assert (r + [s[|s| - 1]])[..|r|] == r;
    } else {
      assert (s + [x])[..|s|] == s;
    }
  }

  /** The sort is stable: the elements of each score keep their relative order. */
  lemma {:induction false} SortDescStable(s: seq<Article>, k: int)
    ensures WithKey(SortDesc(s), k) == WithKey(s, k)
    decreases |s|
  {
    if s != [] {
      SortDescStable(s[..|s| - 1], k);
      InsertWithKey(SortDesc(s[..|s| - 1]), s[|s| - 1], k);
    }
  }

  // ---------------------------------------------------------------- properties of the search

  /** The candidates are exactly the kept articles of the collection, each a copy carrying its score. */
  lemma {:induction false} CandidatesMembers(kb: seq<Article>, tokens: seq<string>, selected: string, x: Article)
    ensures x in Candidates(kb, tokens, selected) <==>
      exists i :: 0 <= i < |kb| && Kept(kb[i], tokens, selected) && x == WithScore(kb[i], Score(kb[i], tokens, selected))
    decreases |kb|
  {
    if kb != [] {
      var init := kb[..|kb| - 1];
      CandidatesMembers(init, tokens, selected, x);
      if x in Candidates(init, tokens, selected) {
        var i :| 0 <= i < |init| && Kept(init[i], tokens, selected) && x == WithScore(init[i], Score(init[i], tokens, selected));
        assert kb[i] == init[i];
      }
      forall i | 0 <= i < |kb| - 1 ensures kb[i] == init[i] { }
    }
  }

  /** Scanning two collections one after the other gives their candidates one after the other. */
  lemma {:induction false} CandidatesAppend(a: seq<Article>, b: seq<Article>, tokens: seq<string>, selected: string)
    ensures Candidates(a + b, tokens, selected) == Candidates(a, tokens, selected) + Candidates(b, tokens, selected)
    decreases |b|
  {
    if b == [] {
      assert a + b == a;
    } else {
      assert (a + b)[..|a + b| - 1] == a + b[..|b| - 1];
      CandidatesAppend(a, b[..|b| - 1], tokens, selected);
    }
  }

  /**
   * What a search returns: only published articles, each the copy of a
   * collection article with only its score set, each scoring more than 2; and
   * every published article scoring more than 2 is among them.
   */
  lemma SearchMembers(kb: seq<Article>, query: string, selected: string)
    ensures forall x :: x in Search(kb, query, selected) <==>
      exists i :: 0 <= i < |kb| && Kept(kb[i], Tokenize(query), selected)
        && x == WithScore(kb[i], Score(kb[i], Tokenize(query), selected))
    ensures forall x :: x in Search(kb, query, selected) ==>
      x.status == Published && x.score.Some? && x.score.value > 2
  {
    var tokens := Tokenize(query);
    var c := Candidates(kb, tokens, selected);
    SortDescPermutation(c);
    forall x ensures x in Search(kb, query, selected) <==> x in c {
      assert x in Search(kb, query, selected) <==> x in multiset(c);
    }
    forall x ensures x in c <==> exists i :: 0 <= i < |kb| && Kept(kb[i], tokens, selected) && x == WithScore(kb[i], Score(kb[i], tokens, selected)) {
      CandidatesMembers(kb, tokens, selected, x);
    }
  }

  /** No draft ever appears in a search result, whatever the query and the module. */
  lemma SearchNoDraft(kb: seq<Article>, query: string, selected: string)
    ensures forall x :: x in Search(kb, query, selected) ==> x.status != Draft
  {
    SearchMembers(kb, query, selected);
  }

  /**
   * The result is sorted by non-increasing score, holds the candidates with
   * their multiplicity, and articles of equal score keep collection order.
   */
  lemma SearchOrdered(kb: seq<Article>, query: string, selected: string)
    ensures Sorted(Search(kb, query, selected))
    ensures multiset(Search(kb, query, selected)) == multiset(Candidates(kb, Tokenize(query), selected))
    ensures forall k :: WithKey(Search(kb, query, selected), k) == WithKey(Candidates(kb, Tokenize(query), selected), k)
  {
    var c := Candidates(kb, Tokenize(query), selected);
    SortDescSorted(c);
    SortDescPermutation(c);
    forall k ensures WithKey(SortDesc(c), k) == WithKey(c, k) {
      SortDescStable(c, k);
    }
  }

  /**
   * When the token list holds the empty token (an empty query, or one with
   * leading or trailing whitespace), every published article is returned.
   */
  lemma EmptyTokenReturnsAllPublished(kb: seq<Article>, query: string, selected: string)
    requires "" in Tokenize(query)
    ensures forall i :: 0 <= i < |kb| && kb[i].status == Published ==>
      WithScore(kb[i], Score(kb[i], Tokenize(query), selected)) in Search(kb, query, selected)
  {
    SearchMembers(kb, query, selected);
    forall i | 0 <= i < |kb| && kb[i].status == Published
      ensures Kept(kb[i], Tokenize(query), selected)
    {
      EmptyTokenScoresFour(kb[i], Tokenize(query), selected);
    }
  }

  /** The top three: no result left out of the suggestions scores higher than one kept in them. */
  lemma SuggestionsAreTopScores(kb: seq<Article>, description: string, selected: string, n: nat)
    requires n <= |Search(kb, description, selected)|
    ensures forall i, j :: 0 <= i < n <= j < |Search(kb, description, selected)| ==>
      Key(Search(kb, description, selected)[..n][i]) >= Key(Search(kb, description, selected)[j])
  {
    SearchOrdered(kb, description, selected);
  }
}
