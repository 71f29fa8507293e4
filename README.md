# Support assistant core, modelled in Dafny

This project models the logic at the heart of an AI support portal:

- **The knowledge-base relevance scorer** `searchKnowledgeBase` and its top-three wrapper `getLLMSuggestions`.
  - It lower-cases the query and splits it on whitespace runs.
  - It skips draft articles.
  - It scores each article:
    - 2 when the module matches ignoring case;
    - then, for every token, 3 for a title substring hit, 1 for a description substring hit and 2 for an exact lower-cased tag.
  - It keeps the articles scoring more than 2 and sorts them by descending score.
- **The article record and the five seed articles** the scorer runs over. Four are published and `kb-005` is a draft.
- **The serverless `ask` handler.** It answers 405 for any method but POST and 400 for a missing question. Otherwise it selects articles by its own rule, which ignores status, and joins their `Title:`/`Description:` blocks with `\n---\n` as the context for the generative model.
- **The chat intake flow.** A step machine, `initial` → `module` → `description` → `complete`, with an append-only message list and a progress map.
- **The ticket form's attachment list.** Files are appended, removed by name and cleared after a submit.

Modules:

- `Wrappers`: `Option`.
- `Browser`: `File`.
- `Text`: the JavaScript string operations used: `toLowerCase`, `split(/\s+/)`, `includes`, `startsWith`, `trim` and `join`.
- `KnowledgeBase`: the record and the seed.
- `Nlp`: the scorer. Its methods are proved equal to pure specification functions:
  - `ScoreArticle` loops over the tokens.
  - `SearchKnowledgeBase` loops over the collection and sorts an array in place by insertion.
  - `GetLLMSuggestions` takes the first three results.
- `Ask`: the handler.
- `ChatInterface`: the class `Chat`.
- `TicketForm`: the class `Form`.
- `Scenarios`: concrete cases proved over the seed collection.

The model keeps three behaviours of the code that a reader might not expect:

- **The module bonus.** `src/lib/nlp.ts:27` awards it whenever the lower-cased names are equal, with no test that a module was chosen. An empty selection is not special.
- **The empty query.** `"".split(/\s+/)` is `[""]`, and the empty string is a substring of every title and description. So an empty query, or one with leading or trailing whitespace, adds 3 + 1 to every published article for each empty token. An empty query therefore returns every published article, not only the module's.
- **The handler's retrieval.** `api/ask.ts:26-30` does not call the scorer. It applies its own filter, which ignores status, so the draft can be sent to the model (`Scenarios.HandlerSelectsDraft`).

## Model

| member | source | states |
|---|---|---|
| Text.LowerStr | src/lib/nlp.ts:15 | lower-casing keeps the length and lower-cases each character |
| Text.LowerStrAppend | src/lib/nlp.ts:22-23 | lower-casing distributes over concatenation |
| Text.LowerStrIsLowerCase | src/lib/nlp.ts:22-24 | lower-casing is idempotent |
| Text.LowerStrOfLowerCase | src/lib/nlp.ts:24 | a lower-case string is its own lower-casing |
| Text.Contains | src/lib/nlp.ts:33 | `includes` holds exactly when the needle occurs at some position |
| Text.ContainsEmpty | src/lib/nlp.ts:33-38 | the empty string is a substring of every string |
| Text.TrimStart | src/components/ChatInterface.tsx:144 | drops exactly the leading whitespace run |
| Text.TrimEnd | src/components/ChatInterface.tsx:144 | drops exactly the trailing whitespace run |
| Text.Trim | src/components/ChatInterface.tsx:144 | the result is the piece of the input with only whitespace before and after it, and it has non-space ends; it is empty exactly when the input is blank |
| Text.TrimIsEmpty | src/components/ChatInterface.tsx:144 | `!s.trim()` holds exactly when `s` is all whitespace |
| Text.SplitWhitespace | src/lib/nlp.ts:15 | a split yields at least one token |
| Text.SplitWhitespaceNoSpace | src/lib/nlp.ts:15 | no token holds whitespace |
| Text.SplitWhitespaceEmptyToken | src/lib/nlp.ts:15 | an empty token appears exactly when the input is empty or starts or ends with whitespace |
| Text.SplitWhitespaceCollapse | src/lib/nlp.ts:15 | the tokens joined back by single spaces give the input with each whitespace run collapsed into one space |
| Text.JoinSpaceInjective | src/lib/nlp.ts:15 | two lists of whitespace-free tokens with the same space-join are equal, so the join determines the tokens |
| Text.SplitWhitespaceUnique | src/lib/nlp.ts:15 | the split is exactly the one list of whitespace-free tokens whose space-join is the collapsed input: the pieces between whitespace runs, in order |
| Text.StartsWith | src/components/ChatInterface.tsx:102 | `startsWith` holds exactly when the prefix occurs at position 0, and then the prefix is also a substring |
| Text.SplitFromWord | src/lib/nlp.ts:15 | reading a whitespace-free word only extends the current token |
| Text.Join | api/ask.ts:34 | an empty list joins to "", a single part to itself, and the length is the parts' lengths plus one separator per gap |
| Text.JoinSnoc | api/ask.ts:34 | joining one more part appends the separator and that part |
| Text.SplitJoinRoundTrip | src/lib/nlp.ts:15 | splitting whitespace-free parts joined by spaces gives the parts back (inner parts non-empty) |
| KnowledgeBase.ArticleIdsDistinct | src/data/knowledge-base.ts:19-80 | the seed holds five articles with pairwise distinct ids |
| KnowledgeBase.OnlyDraftIsKb005 | src/data/knowledge-base.ts:69-75 | a seed article is a draft exactly when its id is `kb-005` |
| KnowledgeBase.SeedTagsLowerCase | src/data/knowledge-base.ts:24-72 | every seed tag is already lower case |
| Nlp.Tokenize | src/lib/nlp.ts:15 | the token list of a query is never empty |
| Nlp.LowerTags | src/lib/nlp.ts:24 | the tag list keeps its length, each tag lower-cased |
| Nlp.TokenScore | src/lib/nlp.ts:33-41 | one token adds at most 6; 0 exactly when it hits nothing, 6 exactly when it hits title, description and tags; an odd amount exactly when it hits just one of title and description |
| Nlp.ModuleBonus | src/lib/nlp.ts:27-29 | the bonus is 0 or 2; the article's own module always earns it; an empty selection earns it exactly for an article whose module is empty, with no test that a module was chosen |
| Nlp.TokensScore | src/lib/nlp.ts:32-42 | each token adds at most 3 + 1 + 2 |
| Nlp.Score | src/lib/nlp.ts:21-42 | a score is at most 2 + 6 per token |
| Nlp.WithScore | src/lib/nlp.ts:45 | the copy carries the score, sorts under it, and differs from the article in `score` alone |
| Nlp.Kept | src/lib/nlp.ts:19-44 | a kept article is published and has at least one token hit: the module bonus alone never keeps it |
| Nlp.Candidates | src/lib/nlp.ts:16-47 | the scan keeps at most as many articles as the collection holds |
| Nlp.Key | src/lib/nlp.ts:50 | the sort key `score \|\| 0` is the article's score, or 0 when it has none |
| Nlp.Insert | src/lib/nlp.ts:50 | insertion adds exactly one element |
| Nlp.SortDesc | src/lib/nlp.ts:50 | the sort keeps the length |
| Nlp.ScoreArticle | src/lib/nlp.ts:21-42 | the module check followed by the token loop computes `Score` |
| Nlp.InsertAt | src/lib/nlp.ts:50 | insertion puts the element right after the last key at least as large, when every later key is smaller |
| Nlp.InsertInto | src/lib/nlp.ts:50 | one in-place insertion step turns the prefix into `Insert` of it and leaves the rest of the array alone |
| Nlp.SortByScore | src/lib/nlp.ts:50 | the in-place sort leaves the array equal to `SortDesc` of its old contents |
| Nlp.Search | src/lib/nlp.ts:14-51 | the search returns at most one article per collection entry, exactly as many as the scan keeps |
| Nlp.SearchKnowledgeBase | src/lib/nlp.ts:14-51 | the scan, push and sort compute `Search` over the collection |
| Nlp.GetLLMSuggestions | src/lib/nlp.ts:59-70 | the suggestions are the first min(3, n) results of the search, in order |
| Nlp.TokensScoreAppend | src/lib/nlp.ts:32-42 | the token sum splits over concatenated token lists |
| Nlp.TokensScorePermutation | src/lib/nlp.ts:32-42 | token order does not matter: equal multisets of tokens score the same, repeats counted |
| Nlp.TokensScoreAtLeast | src/lib/nlp.ts:32-42 | every token contributes at least its own score |
| Nlp.EmptyTokenAddsFour | src/lib/nlp.ts:33-38 | an empty token adds 3 + 1, and 2 more only for an empty tag |
| Nlp.EmptyTokenScoresFour | src/lib/nlp.ts:33-38 | any article scores at least 4 when the tokens hold the empty token |
| Nlp.SingleTokenKept | src/lib/nlp.ts:27-44 | with one token a published article is kept exactly on a title hit, or module and tag, or description and module or tag: a module match alone or a tag alone is not enough |
| Nlp.TokenizeEmptyToken | src/lib/nlp.ts:15 | the empty query tokenises to `[""]`; an empty token appears exactly for an empty query or one starting or ending with whitespace |
| Nlp.InsertMultiset | src/lib/nlp.ts:50 | insertion adds exactly the element to the multiset |
| Nlp.SortDescPermutation | src/lib/nlp.ts:50 | the sort is a permutation |
| Nlp.InsertSorted | src/lib/nlp.ts:50 | inserting into a sorted list keeps it sorted |
| Nlp.SortDescSorted | src/lib/nlp.ts:50 | the sort orders by non-increasing `score \|\| 0` |
| Nlp.InsertWithKey | src/lib/nlp.ts:50 | insertion appends the element to its key class and leaves the other classes alone |
| Nlp.SortDescStable | src/lib/nlp.ts:50 | the sort is stable: each key class keeps its collection order |
| Nlp.WithKeyAppend | src/lib/nlp.ts:50 | selecting one key class distributes over concatenation |
| Nlp.CandidatesMembers | src/lib/nlp.ts:18-46 | an article is a candidate exactly when it copies a kept collection article with its score set |
| Nlp.CandidatesAppend | src/lib/nlp.ts:18-47 | the scan keeps collection order |
| Nlp.SearchMembers | src/lib/nlp.ts:18-50 | a result is exactly a published collection article scoring more than 2, copied with only `score` set to that score |
| Nlp.SearchNoDraft | src/lib/nlp.ts:19 | no draft is ever returned, whatever the query and module |
| Nlp.SearchOrdered | src/lib/nlp.ts:50 | the result is sorted by score, a permutation of the candidates, and stable on equal scores |
| Nlp.EmptyTokenReturnsAllPublished | src/lib/nlp.ts:15-46 | when the tokens hold the empty token, every published article is returned |
| Nlp.SuggestionsAreTopScores | src/lib/nlp.ts:66-69 | no result outside the first n scores higher than one inside |
| Ask.AnyTagIn | api/ask.ts:28 | true exactly when some lower-cased tag is a substring of the lower-cased question |
| Ask.IsRelevant | api/ask.ts:26-30 | selected exactly when the module is non-empty and equal (case-sensitive), or a lower-cased tag is in the question, or the question is in the title; status is not consulted |
| Ask.RelevantArticles | api/ask.ts:26-30 | the filter returns no more than the collection, and only relevant collection articles |
| Ask.RelevantArticlesMembers | api/ask.ts:26-30 | an article is selected exactly when it is in the collection and relevant |
| Ask.RelevantArticlesAppend | api/ask.ts:26 | the filter keeps collection order |
| Ask.Block | api/ask.ts:32-33 | every block starts with `Title: ` |
| Ask.Blocks | api/ask.ts:32-33 | one block per selected article, in order |
| Ask.Context | api/ask.ts:32-34 | the context is empty exactly when nothing is selected |
| Ask.ContextSnoc | api/ask.ts:32-34 | one article gives its block; each further article adds `\n---\n` and its block |
| Ask.Handle | api/ask.ts:13-67 | 405 exactly for non-POST; 400 exactly for an empty question; 200 exactly when the model answers for the context of the relevant articles, with that answer; every other status is 500 with an error |
| Ask.RejectionSkipsRetrieval | api/ask.ts:14-23 | a 405 or 400 response depends on neither the collection nor the model |
| ChatInterface.IsImage | src/components/ChatInterface.tsx:102 | the MIME type is `image/` followed by a subtype |
| ChatInterface.Progress | src/components/ChatInterface.tsx:175-189 | progress is a multiple of 25 in 25..100; 100 exactly for `complete`, 25 exactly for `initial` and `screenshot` |
| ChatInterface.ProgressAlongFlow | src/components/ChatInterface.tsx:175-189 | progress lies in 25..100, is 100 only when complete, and does not fall along the flow |
| ChatInterface.Chat.ProgressPercentage | src/components/ChatInterface.tsx:175-189 | the current progress lies in 25..100 and is 100 exactly when complete |
| ChatInterface.Chat.Valid | src/components/ChatInterface.tsx:54-164 | the invariant every handler keeps: no handler enters `screenshot`, the greeting stays first, `module` only with an image recorded, `complete` only with a non-blank description; so progress is 25 only in `initial` |
| ChatInterface.Chat.constructor | src/components/ChatInterface.tsx:53-72 | the initial state: step `initial`, the greeting alone, empty data and input |
| ChatInterface.Chat.AddMessage | src/components/ChatInterface.tsx:82-96 | exactly one message is appended at the end; nothing else changes |
| ChatInterface.Chat.HandleFileUpload | src/components/ChatInterface.tsx:98-128 | an image file records the screenshot, appends user then assistant messages and moves to `module`; anything else changes nothing |
| ChatInterface.Chat.HandleModuleSelect | src/components/ChatInterface.tsx:130-141 | in any step: stores the module, appends two messages, moves to `description` |
| ChatInterface.Chat.SetInputValue | src/components/ChatInterface.tsx:72 | only the input changes |
| ChatInterface.Chat.HandleDescriptionSubmit | src/components/ChatInterface.tsx:143-167 | blank input changes nothing; otherwise the description is stored, three messages are appended, the input cleared, step `complete` |
| ChatInterface.Chat.HandleSendMessage | src/components/ChatInterface.tsx:169-173 | acts only in the `description` step, as the description submit |
| TicketForm.RemoveNamed | src/components/TicketForm.tsx:28 | removing never lengthens the list |
| TicketForm.RemoveNamedMembers | src/components/TicketForm.tsx:28 | a file stays exactly when it has another name: every file of that name, duplicates included, goes |
| TicketForm.RemoveNamedAppend | src/components/TicketForm.tsx:28 | the kept files stay in their relative order |
| TicketForm.RemoveNamedAbsent | src/components/TicketForm.tsx:28 | removing a name no file has changes nothing |
| TicketForm.Form.constructor | src/components/TicketForm.tsx:16-17 | no files, not submitted |
| TicketForm.Form.HandleFileChange | src/components/TicketForm.tsx:21-25 | the picked files go after the existing ones, in order; a null list changes nothing |
| TicketForm.Form.RemoveFile | src/components/TicketForm.tsx:27-29 | the list becomes `RemoveNamed` of the old list |
| TicketForm.Form.HandleSubmit | src/components/TicketForm.tsx:31-33 | the confirmation is shown; the files are kept |
| TicketForm.Form.ResetAfterSubmit | src/components/TicketForm.tsx:34-36 | the confirmation is hidden and the list is empty |
| Scenarios.TokenizeWords | src/lib/nlp.ts:15 | lower-case, whitespace-free, non-empty words joined by spaces tokenise back into those words |
| Scenarios.TokenizePasswordReset | src/lib/nlp.ts:15 | `password reset` tokenises into its two words |
| Scenarios.PasswordResetScenario | src/data/knowledge-base.ts:20-31 | for `password reset` with no module, `kb-001` scores at least 10 (two title hits and two tag hits) and is returned |
| Scenarios.TokenizeInventoryQuery | src/lib/nlp.ts:15 | `inventory csv upload error` tokenises into its four words |
| Scenarios.InventoryUploadScenario | src/data/knowledge-base.ts:44-55 | for `inventory csv upload error` in `Inventory System`, `kb-003` scores at least 19 and is returned |
| Scenarios.EmptyTokenOnlyScore | src/lib/nlp.ts:27-42 | with only the empty token, an article without empty tags scores its module bonus plus 4 |
| Scenarios.FinanceBonus | src/data/knowledge-base.ts:71 | only `kb-005` earns the bonus for `Finance Module` |
| Scenarios.EmptyQueryScenario | src/lib/nlp.ts:15-50 | the empty query in `Finance Module` returns exactly the four published articles, each scoring 4, and never `kb-005` |
| Scenarios.SeedSearchSkipsKb005 | src/data/knowledge-base.ts:75 | over the seed, no query and no module ever returns the draft `kb-005` |
| Scenarios.HandlerSelectsDraft | api/ask.ts:26-30 | the handler's filter selects the draft `kb-005` for module `Finance Module`, whatever the question |

The `status` field is one of `published` or `draft` by construction: `KnowledgeBase.Status` has exactly those two values (src/data/knowledge-base.ts:12).

## Left out

- Unicode. `toLowerCase` is modelled on the ASCII letters only, and `\s` on the ASCII whitespace characters only. The Unicode case and space tables are not part of this model.
- The Gemini client, the prompt text and the `await`s in `api/ask.ts`. The model call is the parameter `generate(context, question)`, and `None` stands for any failure of the call.
- JSON parsing in `api/ask.ts`. A body that does not parse is `body == None` and gives 500. A missing `question` or `module` reads as `""`. Non-string JSON values (a number as the question, say) are not modelled.
- `Ask.Handle`: the question is passed to `generate` beside the context, but the prompt string built around them is not modelled.
- Timing: `sleep`, `console.log` and the `setTimeout` delays in the chat and the ticket form. Each handler is one atomic update. Updates that could interleave while a delay is pending are not modelled.
- `FileReader`. The data URL is the parameter `preview` of `HandleFileUpload`.
- Message timestamps, the optional `component` of a message, and the module list shown in the chat.
- Which input the chat renders in which step. The upload input is shown only in `initial`/`screenshot`, the module picker only in `module`. The handlers are modelled as callable in any step, which is what their code allows.
- `formRef.reset()` and `onNavigate('dashboard')` in the ticket form's delayed reset. They are DOM and navigation.
- The presentation components (dashboards, knowledge-base views, layout, app shell).
- `Scenarios.PasswordResetScenario`: states a lower bound from title and tag hits only. The description hits are not counted, because they need indexing into the long description literals.
- `Scenarios.InventoryUploadScenario`: the same lower bound, for the same reason.
