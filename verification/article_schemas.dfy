/** The Zod request schemas of the in-memory backend: `CreateArticleSchema`,
    `UpdateArticleSchema` and `SearchFiltersSchema`, stated as the issue
    lists that `parse` collects. Zod checks every field of the object in
    declaration order and reports all issues together; a field of the wrong
    type aborts the object, so a refinement on it no longer runs, while a
    length check only marks it invalid. Lengths are string lengths. */
module ArticleSchemas {
  import opened Wrappers
  import opened Js
  import ArticleStore

  datatype Issue = Issue(path: string, message: string)

  /** A length bound with its message. */
  datatype Bound = Bound(limit: nat, message: string)

  /** `z.string()` with optional `.min` and `.max` checks, possibly `.optional()`. */
  datatype StringRule = StringRule(min: Option<Bound>, max: Option<Bound>, optional: bool)

  /** The issues one field produces. */
  function FieldIssues(v: Value, path: string, rule: StringRule): (issues: seq<Issue>)
    ensures issues == [] <==> FieldValid(v, rule)
    ensures forall i :: 0 <= i < |issues| ==> issues[i].path == path
  {
    match v
    case Undefined =>
      if rule.optional then [] else [Issue(path, "Required")]
    case Str(s) =>
      (if rule.min.Some? && |s| < rule.min.value.limit then [Issue(path, rule.min.value.message)] else [])
      + (if rule.max.Some? && |s| > rule.max.value.limit then [Issue(path, rule.max.value.message)] else [])
    case _ =>
      [Issue(path, "Expected string, received " + ParsedType(v))]
  }

  /** The field passes its rule. */
  predicate FieldValid(v: Value, rule: StringRule)
  {
    match v
    case Undefined => rule.optional
    case Str(s) =>
      (rule.min.Some? ==> rule.min.value.limit <= |s|)
      && (rule.max.Some? ==> |s| <= rule.max.value.limit)
    case _ => false
  }

  /** A type error, which aborts the object. */
  predicate FieldAborts(v: Value, rule: StringRule)
  {
    !(v.Str? || (v.Undefined? && rule.optional))
  }

  // ---------------------------------------------------------------------
  // CreateArticleSchema

  const CreateTitle := StringRule(Some(Bound(1, "Title is required")), Some(Bound(200, "Title too long")), false)
  const CreateContent := StringRule(Some(Bound(1, "Content is required")), None, false)
  const CreateCategory := StringRule(Some(Bound(1, "Category is required")), Some(Bound(50, "Category too long")), false)

  function CreateIssues(body: Object): seq<Issue>
  {
    FieldIssues(Get(body, "title"), "title", CreateTitle)
    + FieldIssues(Get(body, "content"), "content", CreateContent)
    + FieldIssues(Get(body, "category"), "category", CreateCategory)
  }

  /** `CreateArticleSchema.parse(body)`: the three strings as sent (not
      trimmed), or every issue found. */
  function ParseCreate(body: Object): (r: Result<ArticleStore.CreateArticleRequest, seq<Issue>>)
    ensures r.Success? <==>
      (Get(body, "title").Str? && 1 <= |Get(body, "title").s| <= 200
       && Get(body, "content").Str? && 1 <= |Get(body, "content").s|
       && Get(body, "category").Str? && 1 <= |Get(body, "category").s| <= 50)
    ensures r.Success? ==> r.value == ArticleStore.CreateArticleRequest(
      Get(body, "title").s, Get(body, "content").s, Get(body, "category").s)
    ensures r.Failure? ==> r.error != []
  {
    var issues := CreateIssues(body);
    if issues == [] then
      Success(ArticleStore.CreateArticleRequest(Get(body, "title").s, Get(body, "content").s, Get(body, "category").s))
    else Failure(issues)
  }

  /** The messages of the title checks, and that a missing title is
      "Required" rather than one of them. */
  lemma CreateTitleMessages(body: Object)
    ensures Get(body, "title") == Str("") ==> Issue("title", "Title is required") in CreateIssues(body)
    ensures Get(body, "title").Str? && |Get(body, "title").s| > 200 ==> Issue("title", "Title too long") in CreateIssues(body)
    ensures Get(body, "title") == Undefined ==> CreateIssues(body)[0] == Issue("title", "Required")
  {
    var t := FieldIssues(Get(body, "title"), "title", CreateTitle);
    if Get(body, "title") == Str("") {
      assert t[0] == Issue("title", "Title is required");
      assert CreateIssues(body)[0] == t[0];
    }
    if Get(body, "title").Str? && |Get(body, "title").s| > 200 {
      assert t[|t| - 1] == Issue("title", "Title too long");
      assert CreateIssues(body)[|t| - 1] == t[|t| - 1];
    }
  }

  /** Issues come in field order: every title issue precedes every content
      issue, which precede every category issue. */
  lemma CreateIssuesInFieldOrder(body: Object, i: nat, j: nat)
    requires i < j < |CreateIssues(body)|
    ensures FieldRank(CreateIssues(body)[i].path) <= FieldRank(CreateIssues(body)[j].path)
  {
    var a := FieldIssues(Get(body, "title"), "title", CreateTitle);
    var b := FieldIssues(Get(body, "content"), "content", CreateContent);
    var c := FieldIssues(Get(body, "category"), "category", CreateCategory);
    var all := CreateIssues(body);
    assert all == a + b + c;
    assert forall k :: 0 <= k < |a| ==> all[k] == a[k];
    assert forall k :: |a| <= k < |a| + |b| ==> all[k] == b[k - |a|];
    assert forall k :: |a| + |b| <= k < |all| ==> all[k] == c[k - |a| - |b|];
  }

  function FieldRank(path: string): nat
  {
    if path == "title" then 0 else if path == "content" then 1 else 2
  }

  // ---------------------------------------------------------------------
  // UpdateArticleSchema

  const UpdateTitle := StringRule(Some(Bound(1, "String must contain at least 1 character(s)")),
                                  Some(Bound(200, "String must contain at most 200 character(s)")), true)
  const UpdateContent := StringRule(Some(Bound(1, "String must contain at least 1 character(s)")), None, true)
  const UpdateCategory := StringRule(Some(Bound(1, "String must contain at least 1 character(s)")),
                                     Some(Bound(50, "String must contain at most 50 character(s)")), true)

  const RefineMessage := "At least one field must be provided for update"

  /** Some field of the schema is a key of the body (the parsed object keeps
      exactly those keys). */
  predicate HasUpdateKey(body: Object)
  {
    "title" in body || "content" in body || "category" in body
  }

  predicate UpdateAborts(body: Object)
  {
    FieldAborts(Get(body, "title"), UpdateTitle)
    || FieldAborts(Get(body, "content"), UpdateContent)
    || FieldAborts(Get(body, "category"), UpdateCategory)
  }

  function UpdateIssues(body: Object): seq<Issue>
  {
    FieldIssues(Get(body, "title"), "title", UpdateTitle)
    + FieldIssues(Get(body, "content"), "content", UpdateContent)
    + FieldIssues(Get(body, "category"), "category", UpdateCategory)
    + (if !UpdateAborts(body) && !HasUpdateKey(body) then [Issue("", RefineMessage)] else [])
  }

  function StrOpt(v: Value): Option<string>
  {
    if v.Str? then Some(v.s) else None
  }

  /** `UpdateArticleSchema.parse(body)`. */
  function ParseUpdate(body: Object): (r: Result<ArticleStore.UpdateArticleRequest, seq<Issue>>)
    ensures r.Success? <==>
      (HasUpdateKey(body)
       && FieldValid(Get(body, "title"), UpdateTitle)
       && FieldValid(Get(body, "content"), UpdateContent)
       && FieldValid(Get(body, "category"), UpdateCategory))
    ensures r.Success? ==>
      (r.value.title.Some? <==> Get(body, "title").Str?)
      && (r.value.title.Some? ==> r.value.title.value == Get(body, "title").s)
      && (r.value.content.Some? <==> Get(body, "content").Str?)
      && (r.value.content.Some? ==> r.value.content.value == Get(body, "content").s)
      && (r.value.category.Some? <==> Get(body, "category").Str?)
      && (r.value.category.Some? ==> r.value.category.value == Get(body, "category").s)
  {
    var issues := UpdateIssues(body);
    if issues == [] then
      Success(ArticleStore.UpdateArticleRequest(
        StrOpt(Get(body, "title")), StrOpt(Get(body, "content")), StrOpt(Get(body, "category"))))
    else Failure(issues)
  }

  /** The refinement's issue is reported exactly when no field aborted and
      none of the three keys is present. */
  lemma RefineReportedIff(body: Object)
    ensures Issue("", RefineMessage) in UpdateIssues(body) <==> !UpdateAborts(body) && !HasUpdateKey(body)
  {
    var fields := FieldIssues(Get(body, "title"), "title", UpdateTitle)
      + FieldIssues(Get(body, "content"), "content", UpdateContent)
      + FieldIssues(Get(body, "category"), "category", UpdateCategory);
    assert forall i :: 0 <= i < |fields| ==> fields[i].path != "";
  }

  /** A body with none of the three keys reports the refinement and nothing
      else: every field is absent, and absent is allowed. */
  lemma NoKeyOnlyRefine(body: Object)
    requires !HasUpdateKey(body)
    ensures UpdateIssues(body) == [Issue("", RefineMessage)]
  {
    assert Get(body, "title") == Undefined;
    assert Get(body, "content") == Undefined;
    assert Get(body, "category") == Undefined;
  }

  /** A type error skips the refinement: the issues are those of the three
      fields, and there is at least one. */
  lemma TypeErrorSkipsRefine(body: Object)
    requires UpdateAborts(body)
    ensures UpdateIssues(body) ==
      FieldIssues(Get(body, "title"), "title", UpdateTitle)
      + FieldIssues(Get(body, "content"), "content", UpdateContent)
      + FieldIssues(Get(body, "category"), "category", UpdateCategory)
    ensures UpdateIssues(body) != []
  {
  }

  /** A present key satisfies the refinement: the issues are those of the
      three fields. */
  lemma KeyPresentSkipsRefine(body: Object)
    requires HasUpdateKey(body)
    ensures UpdateIssues(body) ==
      FieldIssues(Get(body, "title"), "title", UpdateTitle)
      + FieldIssues(Get(body, "content"), "content", UpdateContent)
      + FieldIssues(Get(body, "category"), "category", UpdateCategory)
  {
  }

  /** An empty body fails the refinement, and only the refinement. */
  lemma EmptyUpdateRejected()
    ensures UpdateIssues(map[]) == [Issue("", RefineMessage)]
  {
    NoKeyOnlyRefine(map[]);
  }

  /** A body whose only field is a number reports the type and nothing else. */
  lemma NumberTitleReportsType(n: int)
    ensures UpdateIssues(map["title" := Num(n)]) == [Issue("title", "Expected string, received number")]
  {
    var body := map["title" := Num(n)];
    assert Get(body, "title") == Num(n);
    assert Get(body, "content") == Undefined && Get(body, "category") == Undefined;
    TypeErrorSkipsRefine(body);
    assert "Expected string, received " + "number" == "Expected string, received number";
  }

  /** A too-short field does not abort: an empty title is reported, and the
      refinement, which sees the key, passes. */
  lemma EmptyTitleUpdate()
    ensures UpdateIssues(map["title" := Str("")]) == [Issue("title", "String must contain at least 1 character(s)")]
  {
    var body := map["title" := Str("")];
    assert Get(body, "title") == Str("");
    assert Get(body, "content") == Undefined && Get(body, "category") == Undefined;
    KeyPresentSkipsRefine(body);
  }

  // ---------------------------------------------------------------------
  // SearchFiltersSchema

  const AnyString := StringRule(None, None, true)

  function SearchIssues(query: Object): seq<Issue>
  {
    FieldIssues(Get(query, "keyword"), "keyword", AnyString)
    + FieldIssues(Get(query, "category"), "category", AnyString)
    + FieldIssues(Get(query, "dateFrom"), "dateFrom", AnyString)
    + FieldIssues(Get(query, "dateTo"), "dateTo", AnyString)
  }

  /** `SearchFiltersSchema.parse(query)`: every filter that is present must
      be a string; the strings are kept as sent. */
  function ParseSearch(query: Object): (r: Result<ArticleStore.SearchFilters, seq<Issue>>)
    ensures r.Success? <==>
      (forall k :: k in ["keyword", "category", "dateFrom", "dateTo"] ==> Get(query, k).Str? || Get(query, k).Undefined?)
    ensures r.Success? ==>
      (r.value.keyword == StrOpt(Get(query, "keyword"))
       && r.value.category == StrOpt(Get(query, "category"))
       && r.value.dateFrom == StrOpt(Get(query, "dateFrom"))
       && r.value.dateTo == StrOpt(Get(query, "dateTo")))
  {
    var issues := SearchIssues(query);
    if issues == [] then
      Success(ArticleStore.SearchFilters(
        StrOpt(Get(query, "keyword")), StrOpt(Get(query, "category")),
        StrOpt(Get(query, "dateFrom")), StrOpt(Get(query, "dateTo"))))
    else Failure(issues)
  }
}
