/**
 * Concrete behaviour of the scorer and of the handler's filter on the seed
 * collection.
 */
module Scenarios {
  import opened Wrappers
  import opened Text
  import opened KnowledgeBase
  import opened Nlp
  import opened Ask

  /** Lower-case tags are left as they are, so an empty tag is absent exactly when it was. */
  lemma LowerTagsOfLowerCase(tags: seq<string>)
    requires forall k :: 0 <= k < |tags| ==> IsLowerCase(tags[k])
    ensures LowerTags(tags) == tags
  {
    forall k | 0 <= k < |tags| ensures LowerStr(tags[k]) == tags[k] {
      LowerStrOfLowerCase(tags[k]);
    }
  }

  /** Lower-case strings joined by a lower-case separator give a lower-case string. */
  lemma {:induction false} JoinLowerCase(parts: seq<string>, sep: string)
    requires IsLowerCase(sep)
    requires forall k :: 0 <= k < |parts| ==> IsLowerCase(parts[k])
    ensures IsLowerCase(Join(parts, sep))
    decreases |parts|
  {
    if |parts| >= 2 {
      JoinLowerCase(parts[1..], sep);
      var a, b := parts[0] + sep, Join(parts[1..], sep);
      forall i | 0 <= i < |a + b| ensures Lower((a + b)[i]) == (a + b)[i] {
        if i < |parts[0]| {
          assert (a + b)[i] == parts[0][i];
        } else if i < |a| {
          assert (a + b)[i] == sep[i - |parts[0]|];
        } else {
          assert (a + b)[i] == b[i - |a|];
        }
      }
    }
  }

  /** Lower-case, whitespace-free, non-empty words joined by single spaces tokenise back into the words. */
  lemma TokenizeWords(words: seq<string>)
    requires |words| >= 1
    requires forall k :: 0 <= k < |words| ==> IsLowerCase(words[k]) && NoSpace(words[k]) && words[k] != []
    ensures Tokenize(Join(words, " ")) == words
  {
    JoinLowerCase(words, " ");
    LowerStrOfLowerCase(Join(words, " "));
    SplitJoinRoundTrip(words);
  }

  lemma TokenizePasswordReset()
    ensures Tokenize("password reset") == ["password", "reset"]
  {
    var words := ["password", "reset"];
    JoinCons(words, " ");
    assert words[1..] == ["reset"];
    assert Join(words, " ") == "password" + " " + "reset" == "password reset";
    TokenizeWords(words);
  }

  /** Two words, each in the title and among the tags, score at least 2 * (3 + 2). */
  lemma TwoWordScore(a: Article, w1: string, w2: string, selected: string)
    requires Contains(LowerStr(a.title), w1) && w1 in LowerTags(a.tags)
    requires Contains(LowerStr(a.title), w2) && w2 in LowerTags(a.tags)
    ensures Score(a, [w1, w2], selected) >= 10
  {
    var title, desc, tags := LowerStr(a.title), LowerStr(a.description), LowerTags(a.tags);
    var words := [w1, w2];
    assert words[..1] == [w1] && [w1][..0] == [];
    assert TokensScore([w1], title, desc, tags) == TokenScore(w1, title, desc, tags) >= 5;
    assert TokensScore(words, title, desc, tags) == TokensScore([w1], title, desc, tags) + TokenScore(w2, title, desc, tags);
  }

  /**
   * Four words, all among the tags and all but the second in the title, with
   * the article's own module selected, score at least 2 + 4 * 2 + 3 * 3.
   */
  lemma FourWordScore(a: Article, w1: string, w2: string, w3: string, w4: string)
    requires w1 in LowerTags(a.tags) && w2 in LowerTags(a.tags) && w3 in LowerTags(a.tags) && w4 in LowerTags(a.tags)
    requires Contains(LowerStr(a.title), w1) && Contains(LowerStr(a.title), w3) && Contains(LowerStr(a.title), w4)
    ensures Score(a, [w1, w2, w3, w4], a.moduleName) >= 19
  {
    var title, desc, tags := LowerStr(a.title), LowerStr(a.description), LowerTags(a.tags);
    var words := [w1, w2, w3, w4];
    assert words[..3] == [w1, w2, w3] && [w1, w2, w3][..2] == [w1, w2];
    assert [w1, w2][..1] == [w1] && [w1][..0] == [];
    assert TokensScore([w1], title, desc, tags) >= 5;
    assert TokensScore([w1, w2], title, desc, tags) >= 7;
    assert TokensScore([w1, w2, w3], title, desc, tags) >= 12;
    assert TokensScore(words, title, desc, tags) >= 17;
  }

  lemma Kb001TitlePassword()
    ensures Contains(LowerStr(Kb001.title), "password")
  {
    assert Kb001.title == "How to reset your " + "password" + "";
    LowerStrOfLowerCase("password");
    LowerPieceOccurs("How to reset your ", "password", "", "password");
  }

  lemma Kb001TitleReset()
    ensures Contains(LowerStr(Kb001.title), "reset")
  {
    assert Kb001.title == "How to " + "reset" + " your password";
    LowerStrOfLowerCase("reset");
    LowerPieceOccurs("How to ", "reset", " your password", "reset");
  }

  /** The seed tags are lower case, so lower-casing them gives them back. */
  lemma SeedLowerTags(i: int)
    requires 0 <= i < |Articles|
    ensures LowerTags(Articles[i].tags) == Articles[i].tags
  {
    SeedTagsLowerCase();
    LowerTagsOfLowerCase(Articles[i].tags);
  }

  /**
   * Query `password reset`, no module: `kb-001` scores at least 10 (a title
   * hit and a tag hit for each word), so it is returned.
   */
  lemma PasswordResetScenario()
    ensures Tokenize("password reset") == ["password", "reset"]
    ensures Score(Kb001, ["password", "reset"], "") >= 10
    ensures exists s :: s >= 10 && WithScore(Kb001, s) in Search(Articles, "password reset", "")
  {
    TokenizePasswordReset();
    Kb001TitlePassword();
    Kb001TitleReset();
    SeedLowerTags(0);
    assert Articles[0] == Kb001;
    TwoWordScore(Kb001, "password", "reset", "");
    SearchMembers(Articles, "password reset", "");
    assert Kept(Articles[0], Tokenize("password reset"), "");
  }

  lemma TokenizeInventoryQuery()
    ensures Tokenize("inventory csv upload error") == ["inventory", "csv", "upload", "error"]
  {
    var words := ["inventory", "csv", "upload", "error"];
    JoinCons(words, " ");
    JoinCons(words[1..], " ");
    JoinCons(words[2..], " ");
    assert words[1..][1..] == words[2..] && words[2..][1..] == ["error"];
    assert Join(words, " ") == "inventory" + " " + ("csv" + " " + ("upload" + " " + "error"));
    assert "inventory" + " " + ("csv" + " " + ("upload" + " " + "error")) == "inventory csv upload error";
    TokenizeWords(words);
  }

  /** A piece `u` of `p + u + q` that lower-cases to `t` makes `t` a substring of the lower-cased whole. */
  lemma LowerPieceOccurs(p: string, u: string, q: string, t: string)
    requires LowerStr(u) == t
    ensures Contains(LowerStr(p + u + q), t)
  {
    LowerStrAppend(p + u, q);
    LowerStrAppend(p, u);
    var w := LowerStr(p) + t + LowerStr(q);
    assert w[|p|..|p| + |t|] == t;
    assert OccursAt(w, t, |p|);
  }

  lemma Kb003TitleInventory()
    ensures Contains(LowerStr(Kb003.title), "inventory")
  {
    assert Kb003.title == "Troubleshooting " + "Inventory" + " File Upload Errors";
    assert LowerStr("Inventory") == "inventory";
    LowerPieceOccurs("Troubleshooting ", "Inventory", " File Upload Errors", "inventory");
  }

  lemma Kb003TitleUpload()
    ensures Contains(LowerStr(Kb003.title), "upload")
  {
    assert Kb003.title == "Troubleshooting Inventory File " + "Upload" + " Errors";
    assert LowerStr("Upload") == "upload";
    LowerPieceOccurs("Troubleshooting Inventory File ", "Upload", " Errors", "upload");
  }

  lemma Kb003TitleError()
    ensures Contains(LowerStr(Kb003.title), "error")
  {
    assert Kb003.title == "Troubleshooting Inventory File Upload " + "Error" + "s";
    assert LowerStr("Error") == "error";
    LowerPieceOccurs("Troubleshooting Inventory File Upload ", "Error", "s", "error");
  }

  /**
   * Query `inventory csv upload error` with module `Inventory System`:
   * `kb-003` earns the module bonus, four tag hits and three title hits, at
   * least 19 in all, so it is returned.
   */
  lemma InventoryUploadScenario()
    ensures Score(Kb003, ["inventory", "csv", "upload", "error"], "Inventory System") >= 19
    ensures exists s :: s >= 19 && WithScore(Kb003, s) in Search(Articles, "inventory csv upload error", "Inventory System")
  {
    TokenizeInventoryQuery();
    Kb003TitleInventory();
    Kb003TitleUpload();
    Kb003TitleError();
    SeedLowerTags(2);
    assert Articles[2] == Kb003;
    FourWordScore(Kb003, "inventory", "csv", "upload", "error");
    SearchMembers(Articles, "inventory csv upload error", "Inventory System");
    assert Kept(Articles[2], Tokenize("inventory csv upload error"), "Inventory System");
  }

  /** With the empty token alone an article with no empty tag scores its module bonus plus 3 + 1. */
  lemma EmptyTokenOnlyScore(a: Article, selected: string)
    requires forall k :: 0 <= k < |a.tags| ==> a.tags[k] != []
    ensures Score(a, [""], selected) == ModuleBonus(a, selected) + 4
  {
    ContainsEmpty(LowerStr(a.title));
    ContainsEmpty(LowerStr(a.description));
    assert [""][..0] == [];
  }

  /** Only `kb-005` belongs to `Finance Module`; the other module names differ in length. */
  lemma FinanceBonus(i: int)
    requires 0 <= i < |Articles|
    ensures ModuleBonus(Articles[i], "Finance Module") == if i == 4 then 2 else 0
  {
    assert |Articles[i].moduleName| == 14 <==> i == 4;
  }

  /** Every seed tag is non-empty. */
  lemma SeedTagsNonEmpty(i: int)
    requires 0 <= i < |Articles|
    ensures forall k :: 0 <= k < |Articles[i].tags| ==> Articles[i].tags[k] != []
  {
  }

  /**
   * Empty query with module `Finance Module`: the one empty token adds 3 + 1
   * to every published article, so all four published articles come back,
   * each scoring 4, while the `Finance Module` article is a draft and does not.
   */
  lemma EmptyQueryScenario()
    ensures forall x :: x in Search(Articles, "", "Finance Module") <==>
      exists i :: 0 <= i < 4 && x == WithScore(Articles[i], 4)
    ensures forall x :: x in Search(Articles, "", "Finance Module") ==> x.id != "kb-005"
  {
    TokenizeEmptyToken("");
    forall i | 0 <= i < |Articles|
      ensures Kept(Articles[i], [""], "Finance Module") <==> i < 4
      ensures i < 4 ==> Score(Articles[i], [""], "Finance Module") == 4
    {
      SeedTagsNonEmpty(i);
      FinanceBonus(i);
      EmptyTokenOnlyScore(Articles[i], "Finance Module");
    }
    SearchMembers(Articles, "", "Finance Module");
  }

  /** The draft `kb-005` is never a search result over the seed, whatever the query and the module. */
  lemma SeedSearchSkipsKb005(query: string, selected: string)
    ensures forall x :: x in Search(Articles, query, selected) ==> x.id != "kb-005"
  {
    SearchMembers(Articles, query, selected);
    OnlyDraftIsKb005();
  }

  /** The handler's filter ignores status: with module `Finance Module` it selects the draft `kb-005`. */
  lemma HandlerSelectsDraft(question: string)
    ensures Kb005.status == Draft
    ensures IsRelevant(Kb005, question, "Finance Module")
    ensures Kb005 in RelevantArticles(Articles, question, "Finance Module")
  {
    assert Articles[4] == Kb005;
    RelevantArticlesMembers(Articles, question, "Finance Module", Kb005);
  }
}
