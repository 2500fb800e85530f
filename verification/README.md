# ithome2025 blog CMS — a Dafny model of its core

ithome2025 is a small blog CMS in TypeScript with three parts:

- a Fastify/Express **backend**. It has an in-memory and a Supabase-backed article store, a `BlogService` with its error codes, request validators (hand-written DTO checks and Zod schemas), and an AI-assist service that logs every prompt;
- the **clean-arch-blog** variant: a synchronous `BlogService`, an array repository, a create validator and an error-to-HTTP-status table;
- a Vue **front end**. It has a settings store persisted in local storage, the AI-assist panel state, per-article comments in local storage, and a text-truncation helper.

This project models each of those core files as a Dafny module. What the source does by mutation is written as classes with `modifies` clauses, and pure logic as functions. The contracts state what each operation promises: the checks and their order, the errors and codes, the repository calls made, the new state, and the listings' order. Lemmas relate the operations to each other: idempotence, round trips, stability of sorting, and uniqueness of ids.

Shared modules:

- `Wrappers`: `Option` and `Result`.
- `Text`: JavaScript `trim`, `\s`, `toLowerCase`, `startsWith` and `includes`.
- `SlugText`: the regular-expression rewrites used by both slug rules.
- `Seqs`: `Array.prototype.filter`, and the stable `Array.prototype.sort` with a newest-first comparator.
- `Js`: JavaScript values, for request bodies.
- `Errors`: `ValidationError` and its codes.

The outside world enters as parameters:

- ids (`nanoid`, `crypto.randomUUID`, `Math.random`) and clock readings;
- the LLM's completion, an `string -> Result` function;
- the Supabase client's replies, a first answer and a retry answer;
- date parsing;
- whether a local-storage write succeeds;
- the outcome of the front end's HTTP call.

## Model

| member | source | states |
|---|---|---|
| Errors.Required | backend/src/domain/Errors.ts:1-6 | every `*_REQUIRED`/not-found failure is a `ValidationError` carrying its code |
| ArticleStore.GenerateSlug | backend/src/repositories/InMemoryArticleRepository.ts:95-102 | the slug holds only a-z, 0-9 and '-', has no "--", and neither starts nor ends with '-' |
| ArticleStore.GenerateSlugKeepsWords | backend/src/repositories/InMemoryArticleRepository.ts:95-102 | without its hyphens, the slug is exactly the a-z and 0-9 characters of the lower-cased title, in order |
| ArticleStore.GenerateSlugExample | backend/src/repositories/InMemoryArticleRepository.ts:95-102 | "New Article" gets the slug "new-article" |
| SlugText.SpacesToHyphen | backend/src/repositories/InMemoryArticleRepository.ts:99 | whitespace runs become single hyphens: no whitespace is left, only hyphens and input characters appear, and a text without whitespace is unchanged |
| SlugText.SpacesToHyphenKeepsWords | backend/src/repositories/InMemoryArticleRepository.ts:99 | the characters that are neither whitespace nor '-' are kept, in order, and no other non-hyphen appears |
| SlugText.SpacesToHyphenCountsRuns | backend/src/repositories/InMemoryArticleRepository.ts:99 | exactly one hyphen is added per maximal whitespace run |
| SlugText.SingleSpaceToHyphen | backend/src/repositories/InMemoryArticleRepository.ts:99 | one space between two space-free words becomes one hyphen |
| SlugText.CollapseHyphens | backend/src/repositories/InMemoryArticleRepository.ts:100 | no "--" is left, the first character is kept, nothing new appears and a text without "--" is unchanged |
| SlugText.CollapseKeepsWords | backend/src/repositories/InMemoryArticleRepository.ts:100 | only hyphens are removed: the other characters are kept in order |
| SlugText.StripEdgeHyphens | backend/src/repositories/InMemoryArticleRepository.ts:101 | a hyphen at either end is dropped; on a text without "--" the result has no "--" and no edge hyphen |
| SlugText.StripEdgeKeepsWords | backend/src/repositories/InMemoryArticleRepository.ts:101 | only hyphens are removed: the other characters are kept in order |
| ArticleStore.FindIndex | backend/src/repositories/InMemoryArticleRepository.ts:12 | the index of the first article with the id, -1 exactly when there is none |
| ArticleStore.InMemoryArticleRepository.FindAll | backend/src/repositories/InMemoryArticleRepository.ts:7-9 | every stored article in creation order, as a value |
| ArticleStore.InMemoryArticleRepository.FindById | backend/src/repositories/InMemoryArticleRepository.ts:11-14 | the first article with that id, or null exactly when no article has it |
| ArticleStore.InMemoryArticleRepository.Create | backend/src/repositories/InMemoryArticleRepository.ts:16-28 | appends exactly one article with the given fields, slug `GenerateSlug(title)`, creation time, no update time; earlier articles unchanged |
| ArticleStore.Merge | backend/src/repositories/InMemoryArticleRepository.ts:36-44 | the updated record keeps id and creation time and sets the update time |
| ArticleStore.MergeFields | backend/src/repositories/InMemoryArticleRepository.ts:36-44 | given fields overwrite, absent ones are kept, and the slug is recomputed exactly when a non-empty title is given |
| ArticleStore.MergeKeepsSlugInSync | backend/src/repositories/InMemoryArticleRepository.ts:38-42 | an update whose title is not "" keeps slug = GenerateSlug(title) |
| ArticleStore.EmptyTitleKeepsOldSlug | backend/src/repositories/InMemoryArticleRepository.ts:40 | an update to title "" keeps the old slug, which then no longer matches the title |
| ArticleStore.InMemoryArticleRepository.Update | backend/src/repositories/InMemoryArticleRepository.ts:30-46 | unknown id: null and the store unchanged; known id: the merged article replaces it at the same position and is returned |
| ArticleStore.UpdateKeepsPositions | backend/src/repositories/InMemoryArticleRepository.ts:43 | an update keeps the length, the position and every other article, and keeps ids unique |
| ArticleStore.InMemoryArticleRepository.Delete | backend/src/repositories/InMemoryArticleRepository.ts:48-56 | true exactly when the id is stored; then exactly that article is removed and the others keep their order; false changes nothing |
| ArticleStore.DeleteRemovesOnlyThatId | backend/src/repositories/InMemoryArticleRepository.ts:48-56 | with unique ids, after a delete no article has the id, ids stay unique and every other article remains |
| ArticleStore.CreateKeepsIdsUnique | backend/src/repositories/InMemoryArticleRepository.ts:16-28 | a fresh id keeps ids unique and the new article is found by it |
| ArticleStore.DayOf | backend/src/repositories/InMemoryArticleRepository.ts:78 | `split('T')[0]`: the longest prefix of the creation time without 'T'; it ends at the first 'T' or at the end |
| ArticleStore.InMemoryArticleRepository.Search | backend/src/repositories/InMemoryArticleRepository.ts:58-93 | narrowing by keyword, then category, then dates gives exactly the articles matching every given filter, in store order |
| ArticleStore.SearchIsOrderedSubset | backend/src/repositories/InMemoryArticleRepository.ts:58-93 | the result is an order-preserving subsequence holding every matching article and only those |
| ArticleStore.SearchWithoutFilters | backend/src/repositories/InMemoryArticleRepository.ts:61-90 | absent or empty filters exclude nothing |
| ArticleStore.SearchIsConjunctive | backend/src/repositories/InMemoryArticleRepository.ts:61-75 | keyword plus category gives the intersection of the two single-filter searches |
| ArticleSchemas.FieldIssues | backend/src/types/article.ts:4-16 | a string field's issues are empty exactly when the value is a string (or absent when optional) within its bounds |
| ArticleSchemas.ParseCreate | backend/src/types/article.ts:4-8 | accepted exactly when title has length 1..200, content at least 1 and category 1..50; the raw (untrimmed) values are kept |
| ArticleSchemas.CreateTitleMessages | backend/src/types/article.ts:5 | an empty title gives 'Title is required', one over 200 characters 'Title too long', and a missing one Zod's 'Required' first |
| ArticleSchemas.CreateIssuesInFieldOrder | backend/src/types/article.ts:4-8 | issues are reported in the order title, content, category |
| ArticleSchemas.ParseUpdate | backend/src/types/article.ts:10-16 | accepted exactly when every present field is within its bounds and at least one field is present; the accepted fields are exactly the string fields, with their values as given |
| ArticleSchemas.RefineReportedIff | backend/src/types/article.ts:10-16 | the at-least-one issue is reported if and only if no field has a type error and none of title, content, category is a key |
| ArticleSchemas.NoKeyOnlyRefine | backend/src/types/article.ts:10-16 | a body with none of the three keys gets the at-least-one issue and nothing else |
| ArticleSchemas.EmptyUpdateRejected | backend/src/types/article.ts:14-16 | `{}` is rejected with 'At least one field must be provided for update' |
| ArticleSchemas.TypeErrorSkipsRefine | backend/src/types/article.ts:10-16 | a body with a field of the wrong type gets exactly the issues of the three fields, at least one; the at-least-one check is not run |
| ArticleSchemas.KeyPresentSkipsRefine | backend/src/types/article.ts:10-16 | a body with one of the keys gets exactly the issues of the three fields |
| ArticleSchemas.NumberTitleReportsType | backend/src/types/article.ts:11 | `{title: <number>}` gets only 'Expected string, received number' |
| ArticleSchemas.EmptyTitleUpdate | backend/src/types/article.ts:11 | `{title: ""}` is rejected with the too-short message alone |
| ArticleSchemas.ParseSearch | backend/src/types/article.ts:18-23 | accepted exactly when each present filter is a string |
| ArticleDto.FilledIff | backend/src/presentation/http/dto/ArticleDTO.ts:27-29 | a field is usable exactly when it is a string that trims to non-empty |
| ArticleDto.ValidateCreateArticle | backend/src/presentation/http/dto/ArticleDTO.ts:26-34 | success exactly when all three trimmed fields are non-empty, returning them trimmed; otherwise the first failing field's code in the order title, category, content |
| ArticleDto.AcceptsTrimmed | backend/src/presentation/http/dto/ArticleDTO.ts:26-34 | three strings without edge whitespace and non-empty are accepted unchanged |
| ArticleDto.ValidateCreateIsIdempotent | backend/src/presentation/http/dto/ArticleDTO.ts:26-34 | validating a validated request again gives it back |
| ArticleDto.ValidateUpdateArticle | backend/src/presentation/http/dto/ArticleDTO.ts:36-58 | a key is in the output exactly when it is defined in the body, with its trimmed non-empty value; a present blank or non-string field gives its code, title before category before content; `{}` gives `{}` |
| ArticleDto.ValidateSearchFilters | backend/src/presentation/http/dto/ArticleDTO.ts:60-86 | keyword and category are kept, trimmed, exactly when they are non-empty strings; a date is kept exactly when it is a non-empty string that parses to a valid date |
| ArticleRepositoryPort.ArticleRepository.Save | backend/src/usecases/BlogService.ts:24 | records the save call; a rejection is returned as is with nothing stored, otherwise the record is stored under its id and returned |
| ArticleRepositoryPort.ArticleRepository.GetById | backend/src/usecases/BlogService.ts:37 | records the call; a rejection is returned as is, otherwise the stored article with that id, or null |
| ArticleRepositoryPort.ArticleRepository.Update | backend/src/usecases/BlogService.ts:76 | records the call; a rejection is returned as is with nothing changed, otherwise the record under that id is replaced |
| ArticleRepositoryPort.ArticleRepository.Delete | backend/src/usecases/BlogService.ts:117 | records the call; a rejection is returned as is with nothing removed, otherwise exactly that id is removed |
| ArticleRepositoryPort.ArticleRepository.GetAll | backend/src/usecases/BlogService.ts:103 | records the call and returns the store's answer or rejection |
| ArticleRepositoryPort.ArticleRepository.GetByCategory | backend/src/usecases/BlogService.ts:30 | records the call with the category and returns the store's answer or rejection |
| ArticleRepositoryPort.ArticleRepository.Search | backend/src/usecases/BlogService.ts:99 | records the call with the filters and returns the store's answer or rejection |
| BlogService.CheckNewArticle | backend/src/usecases/BlogService.ts:8-21 | success exactly when the trimmed title, category and content are non-empty, yielding them trimmed; otherwise TITLE_REQUIRED, CATEGORY_REQUIRED, CONTENT_REQUIRED in that order |
| BlogService.CheckedArticleIsStable | backend/src/usecases/BlogService.ts:9-24 | what is saved passes the checks again unchanged |
| BlogService.Blog.AddArticle | backend/src/usecases/BlogService.ts:8-25 | a failing check touches no repository; otherwise save is called once with exactly the trimmed fields, and its rejection is thrown on or the stored record returned |
| BlogService.Blog.GetByCategory | backend/src/usecases/BlogService.ts:27-31 | a blank category gives [] with no call; otherwise one query with the trimmed category, whose answer or rejection is passed on |
| BlogService.Blog.GetById | backend/src/usecases/BlogService.ts:33-38 | a blank id gives ID_REQUIRED with no call; otherwise one lookup, whose rejection is thrown on and whose answer is returned unchanged, null included |
| BlogService.CheckPatch | backend/src/usecases/BlogService.ts:46-68 | success exactly when no present field is blank, with present fields trimmed and absent ones absent; otherwise the first blank field's code |
| BlogService.RewrittenByChecks | backend/src/usecases/BlogService.ts:46-68 | after the checks, fields checked before the failing one are trimmed and the rest are untouched |
| BlogService.CheckAndTrim | backend/src/usecases/BlogService.ts:46-68 | the in-place field-by-field checks return `CheckPatch` of the caller's object and leave it as `RewrittenByChecks` says |
| BlogService.Blog.UpdateArticle | backend/src/usecases/BlogService.ts:40-77 | blank id: ID_REQUIRED, no calls; a blank present field: its code, no calls; a rejected lookup: that error, no update; missing article: ARTICLE_NOT_FOUND after the lookup only; otherwise lookup then one update with the trimmed fields, whose rejection is thrown on |
| BlogService.CleanFilters | backend/src/usecases/BlogService.ts:80-97 | keyword and category kept, trimmed, exactly when non-blank; a date kept exactly when it is a `Date` |
| BlogService.CleanFiltersIdempotent | backend/src/usecases/BlogService.ts:80-97 | cleaning cleaned filters changes nothing |
| BlogService.BlankFiltersCleanToEmpty | backend/src/usecases/BlogService.ts:80-97 | all-blank filters clean to `{}` |
| BlogService.Blog.SearchArticles | backend/src/usecases/BlogService.ts:79-100 | one search call with exactly the cleaned filters, passing on its answer or rejection |
| BlogService.Blog.GetAllArticles | backend/src/usecases/BlogService.ts:102-104 | one call to the repository, its answer or rejection passed on |
| BlogService.Blog.DeleteArticle | backend/src/usecases/BlogService.ts:106-118 | blank id: ID_REQUIRED, no call; a rejected lookup: that error, no delete; missing article: ARTICLE_NOT_FOUND and no delete; otherwise one delete of exactly that id, whose rejection is thrown on |
| RemoteArticleRepository.Slugify | backend/src/data/SupabaseArticleRepository.ts:6-11 | the slug holds only a-z, 0-9, U+4E00..U+9FA5 and '-', and has no "--" |
| RemoteArticleRepository.SlugifyIdempotent | backend/src/data/SupabaseArticleRepository.ts:6-11 | a slug is its own slug |
| RemoteArticleRepository.SlugIsUnchanged | backend/src/data/SupabaseArticleRepository.ts:7-9 | trimming, lower-casing and filtering leave a text of slug characters unchanged |
| RemoteArticleRepository.SlugifyKeepsWords | backend/src/data/SupabaseArticleRepository.ts:6-11 | without its hyphens, the slug is exactly the a-z, 0-9 and U+4E00..U+9FA5 characters of the trimmed, lower-cased title, in order |
| RemoteArticleRepository.SlugifyIgnoresEdgeSpace | backend/src/data/SupabaseArticleRepository.ts:7 | titles equal after trimming get the same slug |
| RemoteArticleRepository.Attempts | backend/src/data/SupabaseArticleRepository.ts:42-57 | one request, and a second (without `updated_at`) exactly when a retry happens |
| RemoteArticleRepository.MapToArticle | backend/src/data/SupabaseArticleRepository.ts:239-249 | fields copied from the row; a timestamp is present exactly when the row's is truthy, and is then the parsed row value |
| RemoteArticleRepository.MapAll | backend/src/data/SupabaseArticleRepository.ts:87 | every row mapped, in order |
| RemoteArticleRepository.WriteFailure | backend/src/data/SupabaseArticleRepository.ts:59-64 | SLUG_TAKEN exactly when the message contains "duplicate" or "unique"; otherwise the prefix plus the database message |
| RemoteArticleRepository.WriteOutcome | backend/src/data/SupabaseArticleRepository.ts:59-66 | an error reply is classified by `WriteFailure`; a row is mapped |
| RemoteArticleRepository.InsertedRow | backend/src/data/SupabaseArticleRepository.ts:25-37 | the inserted row carries the fields, `Slugify(title)` and the same time for creation and update |
| RemoteArticleRepository.ListOutcome | backend/src/data/SupabaseArticleRepository.ts:86-87 | an error reply gives the prefixed message; null data gives []; rows are mapped |
| RemoteArticleRepository.KeywordCondition | backend/src/data/SupabaseArticleRepository.ts:187-189 | a title-or-content `ilike` condition on `%keyword%` exactly when a non-empty keyword is given |
| RemoteArticleRepository.CategoryCondition | backend/src/data/SupabaseArticleRepository.ts:191-193 | an equality condition on the category exactly when a non-empty category is given |
| RemoteArticleRepository.DateCondition | backend/src/data/SupabaseArticleRepository.ts:195-201 | at most one bound, of the requested kind, and exactly when the value is a valid `Date` |
| RemoteArticleRepository.SearchConditions | backend/src/data/SupabaseArticleRepository.ts:184-203 | a keyword, category or date condition is present exactly when that filter is given |
| RemoteArticleRepository.SupabaseArticleRepository.SendOne | backend/src/data/SupabaseArticleRepository.ts:42-57 | the request is sent, and the fallback after it exactly when the first reply's error mentions `updated_at`; the later reply is the answer |
| RemoteArticleRepository.SupabaseArticleRepository.SendList | backend/src/data/SupabaseArticleRepository.ts:73-84 | the same one-shot retry for queries that answer with a list of rows |
| RemoteArticleRepository.SupabaseArticleRepository.BuildConditions | backend/src/data/SupabaseArticleRepository.ts:184-203 | an invalid date fails with "Invalid time value"; otherwise exactly `SearchConditions(filters)` |
| RemoteArticleRepository.SupabaseArticleRepository.Save | backend/src/data/SupabaseArticleRepository.ts:23-67 | no client: the not-initialised error; otherwise the insert, one retry without `updated_at` exactly when the error mentions it, and the classified outcome |
| RemoteArticleRepository.SupabaseArticleRepository.GetAll | backend/src/data/SupabaseArticleRepository.ts:69-88 | newest-first select with the same one-shot retry; DB_SELECT_FAILED on error |
| RemoteArticleRepository.SupabaseArticleRepository.GetByCategory | backend/src/data/SupabaseArticleRepository.ts:90-113 | a blank category gives [] without a query; otherwise a select on the trimmed category |
| RemoteArticleRepository.SupabaseArticleRepository.GetById | backend/src/data/SupabaseArticleRepository.ts:115-139 | PGRST116 gives null, any other error DB_SELECT_FAILED, a row its article |
| RemoteArticleRepository.SupabaseArticleRepository.Update | backend/src/data/SupabaseArticleRepository.ts:141-178 | the slug is written exactly when a truthy title is given; one retry without `updated_at`; SLUG_TAKEN or DB_UPDATE_FAILED on error |
| RemoteArticleRepository.SupabaseArticleRepository.Search | backend/src/data/SupabaseArticleRepository.ts:180-237 | an invalid date fails before anything is sent; otherwise the conditions of the given filters, newest first, DB_SEARCH_FAILED on error |
| AiAssist.ModelPrompt | backend/src/usecases/AiAssistService.ts:29 | the bare prompt when there is no content; otherwise the template with the instruction and then the content |
| AiAssist.ModelPromptCarriesBoth | backend/src/usecases/AiAssistService.ts:29 | the templated text contains both the prompt and the article content |
| AiAssist.AiAssistService.Assist | backend/src/usecases/AiAssistService.ts:24-47 | a blank prompt fails with PROMPT_REQUIRED before any call; otherwise the LLM is asked exactly once, the answer trimmed, exactly one log appended with the untrimmed prompt, and that log returned |
| PromptLogStore.InMemoryPromptLogRepository.Save | backend/src/data/PromptLogRepository.ts:12-16 | appends exactly one record with the fresh id, time and given fields, and returns it |
| PromptLogStore.Listing | backend/src/data/PromptLogRepository.ts:23 | a permutation of the log, newest first, with entries of equal time in saving order |
| PromptLogStore.ListingByArticle | backend/src/data/PromptLogRepository.ts:19 | exactly the logs of that article, newest first, logs with the same time in saving order |
| PromptLogStore.InMemoryPromptLogRepository.ListByArticle | backend/src/data/PromptLogRepository.ts:18-20 | returns `ListingByArticle` of the log and changes nothing |
| PromptLogStore.InMemoryPromptLogRepository.ListAll | backend/src/data/PromptLogRepository.ts:22-24 | returns `Listing` of the log and does not reorder it |
| Seqs.SortIsStable | backend/src/data/PromptLogRepository.ts:19 | the newest-first sort keeps entries with equal keys in their order |
| CleanArchRepository.InMemoryArticleRepository.Save | clean-arch-blog/src/data/InMemoryArticleRepository.ts:6-8 | appends the article at the end, duplicates included |
| CleanArchRepository.InMemoryArticleRepository.GetAll | clean-arch-blog/src/data/InMemoryArticleRepository.ts:9-11 | all saved articles in saving order, as a value |
| CleanArchService.CheckArticle | clean-arch-blog/src/usecases/BlogService.ts:8-21 | TITLE_REQUIRED before CATEGORY_REQUIRED; success yields title and category trimmed and no content |
| CleanArchService.Blog.AddArticle | clean-arch-blog/src/usecases/BlogService.ts:8-21 | success appends that record; failure saves nothing |
| Seqs.FilterCounts | clean-arch-blog/src/usecases/BlogService.ts:27 | `filter` keeps every occurrence of a kept value and none of the others |
| CleanArchService.Blog.GetByCategory | clean-arch-blog/src/usecases/BlogService.ts:24-28 | blank gives []; otherwise the stored articles whose category equals the trimmed target, every occurrence of each (duplicates included), in saving order: exactly `filter` on the store |
| CleanArchDto.ValidateCreateArticle | clean-arch-blog/src/presentation/http/dto/ArticleDTO.ts:15-23 | success exactly when the three trimmed fields are non-empty; codes in the order title, category, content |
| CleanArchDto.SameAsBackend | clean-arch-blog/src/presentation/http/dto/ArticleDTO.ts:15-23 | agrees with the backend's create validator on every body |
| CleanArchErrorHandler.HandleError | clean-arch-blog/src/presentation/http/middlewares/errorHandler.ts:4-16 | ARTICLE_NOT_FOUND gives 404 {message}; other validation errors 400 {error, code}; other errors 400 {error}; anything else 500 |
| CleanArchErrorHandler.RejectedCreateIs400 | clean-arch-blog/src/presentation/http/middlewares/errorHandler.ts:10 | a rejected create request is answered 400 with its code |
| SettingsStore.MergeAI | frontend/src/stores/settingsStore.ts:85 | each given field takes the patch's value, each absent one keeps the current value |
| SettingsStore.MergeUser | frontend/src/stores/settingsStore.ts:101 | each given field takes the patch's value, each absent one keeps the current value |
| SettingsStore.SavedRecordsLoadBack | frontend/src/stores/settingsStore.ts:63-71 | loading a stored full record gives back exactly that record |
| SettingsStore.MergeAITwice | frontend/src/stores/settingsStore.ts:85 | two merges are one merge with the later fields winning |
| SettingsStore.ValidKeyIsPrefix | frontend/src/stores/settingsStore.ts:48-51 | a key is valid exactly when it starts with "sk-" |
| SettingsStore.DefaultsAreOff | frontend/src/stores/settingsStore.ts:22-51 | with the defaults, AI is not enabled and the key is not valid |
| SettingsStore.TestAPIKey | frontend/src/stores/settingsStore.ts:112-126 | a key without "sk-" fails with 'API Key 格式不正確' before any call; otherwise true exactly when the connection test succeeds |
| SettingsStore.Settings.constructor | frontend/src/stores/settingsStore.ts:22-41 | the state starts at the stated defaults, not loading, no error |
| SettingsStore.Settings.LoadSettings | frontend/src/stores/settingsStore.ts:54-78 | stored records are overlaid, AI first; a missing entry leaves its record; unparsable text sets '載入設定失敗' and stops; loading ends false |
| SettingsStore.Settings.SaveAISettings | frontend/src/stores/settingsStore.ts:80-94 | the merge is applied; a successful write stores the merged record under 'ai-settings', a failed one sets the error and fails; loading ends false |
| SettingsStore.Settings.SaveUserSettings | frontend/src/stores/settingsStore.ts:96-110 | the same for the user record under 'user-settings' |
| SettingsStore.Settings.ResetSettings | frontend/src/stores/settingsStore.ts:128-147 | both records back to the defaults and both keys removed |
| AiPanel.Shown | frontend/src/composables/useAiAssist.ts:51-56 | the answer on success; a text starting with "錯誤: " on failure |
| AiPanel.Appended | frontend/src/composables/useAiAssist.ts:69 | starts with the current content and ends with the answer; a blank line separates them when there is content |
| AiPanel.Panel.Toggle | frontend/src/composables/useAiAssist.ts:31-36 | flips `show`; closing clears prompt and result |
| AiPanel.Panel.HandleAiAssist | frontend/src/composables/useAiAssist.ts:38-60 | a blank prompt sends nothing and changes nothing; otherwise the untrimmed prompt is sent with the content, the result shown and loading ends false |
| AiPanel.Panel.ApplyAiResult | frontend/src/composables/useAiAssist.ts:62-66 | returns the previous result and clears prompt and result |
| AiPanel.Panel.AppendAiResult | frontend/src/composables/useAiAssist.ts:68-72 | returns `Appended(current, result)` and clears |
| AiPanel.Panel.Clear | frontend/src/composables/useAiAssist.ts:74-77 | empties prompt and result only |
| AiPanel.Panel.Reset | frontend/src/composables/useAiAssist.ts:79-86 | every field back to false or '' |
| Comments.KeyForArticle | frontend/src/composables/useComments.ts:13-15 | the key is the prefix followed by the article id |
| Comments.KeysAreDistinct | frontend/src/composables/useComments.ts:11-15 | different articles never share a storage entry |
| Comments.Listing | frontend/src/composables/useComments.ts:20-32 | [] for a missing, empty or malformed entry; otherwise a permutation of the stored list, newest first, ties in stored order |
| Comments.CommentStore.LoadComments | frontend/src/composables/useComments.ts:20-32 | returns `Listing` and changes nothing |
| Comments.CommentStore.SaveComments | frontend/src/composables/useComments.ts:34-53 | a successful write changes only this article's entry, calls the article's callback set in order and then every window listener registered for its key; a failed one changes nothing |
| Comments.HandlerCalls | frontend/src/composables/useComments.ts:83-88 | the callbacks run by the window listeners for an event: those of every listener whose article key is the event's key, and no others |
| Comments.HandlersWatchTheirArticle | frontend/src/composables/useComments.ts:84 | a window listener answers the events of its own article only |
| Comments.KeyDeterminesArticle | frontend/src/composables/useComments.ts:13-15 | the storage key determines its article |
| Comments.SubscribedCallbackRunsTwice | frontend/src/composables/useComments.ts:38-46 | a subscribed callback runs at least twice on a save of its article, once from the set and once from its window listener |
| Comments.CommentStore.AddComment | frontend/src/composables/useComments.ts:55-67 | stores the new comment followed by the current listing and returns it with the given author, email and message |
| Comments.AddedCommentComesFirst | frontend/src/composables/useComments.ts:55-67 | a comment not older than the listed ones is listed first, followed by the earlier listing |
| Comments.NewestListedFirst | frontend/src/composables/useComments.ts:26 | a newest element put in front stays in front after sorting |
| Comments.SortedListIsKept | frontend/src/composables/useComments.ts:26 | sorting a listing that is already newest first changes nothing |
| Comments.CommentStore.RemoveComment | frontend/src/composables/useComments.ts:69-73 | stores the listing without the comments having that id |
| Comments.RemovedCommentIsGone | frontend/src/composables/useComments.ts:69-73 | after a removal no listed comment has the id, and every other comment remains |
| Comments.Added | frontend/src/composables/useComments.ts:81 | adding a callback keeps the listener list a set with the callback in it |
| Comments.Removed | frontend/src/composables/useComments.ts:91 | removing a callback leaves every other and keeps the list a set |
| Comments.CommentStore.Subscribe | frontend/src/composables/useComments.ts:75-89 | the callback is added to that article's set, and one new window listener, with a token no other has, is registered for it |
| Comments.CommentStore.Unsubscribe | frontend/src/composables/useComments.ts:90-93 | the callback leaves that article's set, and exactly that call's window listener is removed |
| Helpers.Truncate | frontend/src/utils/helpers.ts:17-20 | a text that fits is unchanged; a longer one becomes its first `maxLength` characters (none when negative) plus "..." |
| Helpers.TruncateBound | frontend/src/utils/helpers.ts:17-20 | the result is at most `maxLength` + 3 long |
| Helpers.TruncateIdempotent | frontend/src/utils/helpers.ts:17-20 | truncating twice with the same limit is truncating once |

## Left out

- HTTP routes, controllers, middleware other than the clean-arch error handler, the Vue components, router, API clients and `useMarkdown`: framework glue around the modelled core.
- Supabase and OpenAI clients: their replies are parameters. Query building is reduced to the list of conditions and columns each request carries.
- JSON and `localStorage` serialisation. Storage is a map from key to what parsing the stored text yields, and whether a write throws is a parameter.
- `toLowerCase` is modelled on ASCII letters only; other characters are kept as they are. Lengths count code points, not UTF-16 units.
- Concurrency. Every operation runs to completion alone, with a single clock reading, so the check-then-act window in `updateArticle` and `deleteArticle` is not modelled.
- `formatDate`, `delay` and `debounce` in helpers.ts: locale formatting and timers.
- Comments.CommentStore.SaveComments: `storage` events coming from other tabs, and a `StorageEvent` constructor that throws (which `saveComments` ignores), are not modelled. The event this page dispatches is modelled, and runs this page's window listeners.
- backend/src/data/AsyncArticleRepository.ts is not part of this model. `ArticleRepositoryPort` stands for it: every call is recorded, and may be rejected with any error the concrete store throws, which the service passes on.
- The Supabase repository has no `delete`, so `deleteArticle` cannot run against it; the model does not pair the two.
- AiAssist.AiAssistService.Assist: the log store is the in-memory one, whose `save` cannot fail, so a failing save is not modelled.
- RemoteArticleRepository.SupabaseArticleRepository.Search: requires a given date filter to be a `Date` value, as its type says. A truthy non-`Date` would make `toISOString` throw a `TypeError`, which is not modelled.
- SettingsStore.Settings.LoadSettings: a stored record holding fields of the other record, or unknown fields, is not merged in; only the record's own fields are.
- Comments.CommentStore.SaveComments: a callback that throws is not modelled (callbacks are identities).
- The keyword in the Supabase search filter is not escaped; the model carries it verbatim into the condition.
- Comments.CommentStore: the model is one `useComments()` instance. The window and `localStorage` are shared by every instance, but the listeners and window handlers of other instances, which a save would also reach, are not modelled.
- SettingsStore.MergeAI: a `Partial` key that is present but `undefined` would overwrite the field with `undefined`, which `JSON.stringify` then drops from the stored text; the model treats it as absent.
- SettingsStore.MergeUser: a `Partial` key that is present but `undefined` would overwrite the field with `undefined`, which `JSON.stringify` then drops from the stored text; the model treats it as absent.
- ArticleStore.Merge: a request key that is present but `undefined` would overwrite the stored field with `undefined`; the model treats it as absent.
- `temperature` is only stored and is kept as a `real`.
