/** The knowledge-base article record and the fixed seed collection the scorer and the handler read. */
module KnowledgeBase {
  import opened Wrappers
  import Text

  /** An article is either visible to retrieval (`published`) or not yet (`draft`). */
  datatype Status = Published | Draft

  /** How the full content is stored (`text` is `PlainText` here); not interpreted by any core operation. */
  datatype ContentType = Webpage | Docx | Excel | Video | PlainText

  /**
   * One knowledge-base entry. `score` is the relevance attached by one search;
   * the seed articles carry none (`undefined` in the collection literal).
   */
  datatype Article = Article(
    id: string,
    title: string,
    moduleName: string,
    tags: seq<string>,
    lastUpdated: string,
    createdBy: string,
    status: Status,
    contentType: ContentType,
    contentLocation: string,
    description: string,
    score: Option<int>)

  const Kb001 := Article("kb-001", "How to reset your password", "User Administration",
    ["password", "account", "reset"], "2024-07-28", "Admin", Published, PlainText, "",
    "To reset your password, navigate to the login page and click the 'Forgot Password' link. You will be prompted to enter your email address, and a reset link will be sent to you.",
    None)

  const Kb002 := Article("kb-002", "Quarterly Sales Report Generation Guide", "Sales Dashboard",
    ["sales", "reports", "pdf"], "2024-07-27", "Sales Team", Published, Docx,
    "/kb-files/quarterly-sales-report-guide.docx",
    "A detailed guide on how to generate quarterly sales reports from the Sales Dashboard.",
    None)

  const Kb003 := Article("kb-003", "Troubleshooting Inventory File Upload Errors", "Inventory System",
    ["inventory", "csv", "upload", "error"], "2024-07-26", "Support", Published, Webpage,
    "/kb/inventory-upload-errors",
    "A troubleshooting guide for common errors encountered when uploading inventory files.",
    None)

  const Kb004 := Article("kb-004", "Explainer: New Customer Portal Features", "Customer Portal",
    ["login", "portal", "customer", "video"], "2024-07-29", "Engineering", Published, Video,
    "/kb-files/portal-features-explainer.mp4",
    "A video walkthrough of the new features available in the customer portal.",
    None)

  const Kb005 := Article("kb-005", "Finance Module Excel Functions", "Finance Module",
    ["finance", "excel", "functions"], "2024-07-28", "Finance Team", Draft, Excel,
    "/kb-files/finance-module-functions.xlsx",
    "An Excel sheet detailing the various financial functions and their usage within the Finance Module.",
    None)

  /** The five seed articles, in collection order. */
  const Articles: seq<Article> := [Kb001, Kb002, Kb003, Kb004, Kb005]

  /** Article ids are pairwise distinct across the collection. */
  lemma ArticleIdsDistinct()
    ensures |Articles| == 5
    ensures forall i, j :: 0 <= i < j < |Articles| ==> Articles[i].id != Articles[j].id
  {
  }

  /** `kb-005` is the one draft; every other seed article is published. */
  lemma OnlyDraftIsKb005()
    ensures forall i :: 0 <= i < |Articles| ==>
      (Articles[i].status == Draft <==> Articles[i].id == "kb-005")
  {
  }

  /** Every seed tag is already lower case, so lower-casing the tags changes nothing for this data. */
  lemma SeedTagsLowerCase()
    ensures forall i, k :: 0 <= i < |Articles| && 0 <= k < |Articles[i].tags| ==>
      Text.IsLowerCase(Articles[i].tags[k])
  {
  }
}
